/** What fixes the five generators of the Bech32 checksum: a symbol stands for an element of the field GF(32), six of
    them in the register for a polynomial over it, and a step multiplies by x modulo the generator polynomial of
    BIP-173. */
module Bech32Field {
  import opened Bits
  import opened Bech32Checksum

  // ---------- the field ----------

  /** Twice an element, in the field that BIP-173 names: five bits, with a^5 = a^3 + 1. Sums are exclusive ors, and
      every element is a sum of powers of `a`, so what is additive and commutes with doubling commutes with every
      factor. */
  function Double(d: nat): nat {
    Xor(LowBits(ShiftLeft(d, 1), 5), if Bit(d, 4) then 9 else 0)
  }

  /** Twice each of the `n` lowest elements of a register. */
  function DoubleAll(c: nat, n: nat): nat
    decreases n, c
  {
    if n == 0 then 0 else ShiftLeft(DoubleAll(ShiftRight(c, 5), n - 1), 5) + Double(LowBits(c, 5))
  }

  lemma DoubleRange(d: nat)
    ensures Double(d) < Pow2(5)
  {
    assert Pow2(5) == 32;
    XorRange(LowBits(ShiftLeft(d, 1), 5), if Bit(d, 4) then 9 else 0, 5);
  }

  lemma DoubleLinear(d: nat, e: nat)
    ensures Double(Xor(d, e)) == Xor(Double(d), Double(e))
  {
    hide Xor, LowBits, ShiftLeft, Bit;
    XorShiftLeft(d, e, 1);
    XorLowBits(ShiftLeft(d, 1), ShiftLeft(e, 1), 5);
    XorBit(d, e, 4);
    var p, q: nat := if Bit(d, 4) then 9 else 0, if Bit(e, 4) then 9 else 0;
    XorSwap(LowBits(ShiftLeft(d, 1), 5), LowBits(ShiftLeft(e, 1), 5), p, q);
    XorSelf(9);
    XorZero(9);
    XorZero(0);
  }

  lemma {:induction false} DoubleAllLinear(c: nat, e: nat, n: nat)
    ensures DoubleAll(Xor(c, e), n) == Xor(DoubleAll(c, n), DoubleAll(e, n))
    decreases n
  {
    hide Xor, LowBits, ShiftLeft, ShiftRight, Double;
    if n == 0 {
      XorZero(0);
    } else {
      XorShiftRight(c, e, 5);
      XorLowBits(c, e, 5);
      DoubleAllLinear(ShiftRight(c, 5), ShiftRight(e, 5), n - 1);
      DoubleLinear(LowBits(c, 5), LowBits(e, 5));
      JoinedSum(DoubleAll(ShiftRight(c, 5), n - 1), DoubleAll(ShiftRight(e, 5), n - 1),
                Double(LowBits(c, 5)), Double(LowBits(e, 5)));
      DoubleRange(LowBits(c, 5));
      DoubleRange(LowBits(e, 5));
    }
  }

  lemma JoinedSum(p: nat, q: nat, s: nat, t: nat)
    ensures s < Pow2(5) && t < Pow2(5) ==>
              ShiftLeft(Xor(p, q), 5) + Xor(s, t) == Xor(ShiftLeft(p, 5) + s, ShiftLeft(q, 5) + t)
  {
    hide Xor, ShiftLeft;
    if s < Pow2(5) && t < Pow2(5) {
      XorBelow(p, s, 5);
      XorBelow(q, t, 5);
      XorRange(s, t, 5);
      XorBelow(Xor(p, q), Xor(s, t), 5);
      XorSwap(ShiftLeft(p, 5), s, ShiftLeft(q, 5), t);
      XorShiftLeft(p, q, 5);
    }
  }

  // ---------- a step commutes with doubling ----------

  lemma DoubleZero()
    ensures Double(0) == 0
  {
    assert LowBits(0, 5) == 0;
  }

  /** Elements that are zero stay zero. */
  lemma {:induction false} NoMoreElements(c: nat, n: nat)
    requires c < Pow2(5 * n)
    ensures DoubleAll(c, n + 1) == DoubleAll(c, n) < Pow2(5 * n)
    decreases n
  {
    hide Double, Xor;
    DoubleZero();
    if n == 0 {
      assert ShiftRight(0, 5) == 0 && LowBits(0, 5) == 0;
      assert DoubleAll(c, 1) == ShiftLeft(DoubleAll(ShiftRight(0, 5), 0), 5) + Double(LowBits(0, 5));
    } else {
      TopRange(c, 5, 5 * (n - 1));
      NoMoreElements(ShiftRight(c, 5), n - 1);
      DoubleRange(LowBits(c, 5));
      AppendRange(DoubleAll(ShiftRight(c, 5), n - 1), Double(LowBits(c, 5)), 5 * (n - 1), 5);
    }
  }

  /** An element appended to a register. */
  lemma DoubleAppended(c: nat, v: nat, n: nat)
    requires v < Pow2(5)
    ensures DoubleAll(ShiftLeft(c, 5) + v, n + 1) == ShiftLeft(DoubleAll(c, n), 5) + Double(v)
  {
    hide Double, ShiftLeft, ShiftRight, LowBits;
    ShiftBack(c, v, 5, 0);
    assert ShiftRight(c, 0) == c by { NoShift(c); }
  }

  lemma NoShift(c: nat)
    ensures ShiftRight(c, 0) == c && ShiftLeft(c, 0) == c
  {
  }

  lemma LowPart(low: nat)
    requires low < Pow2(25)
    ensures Shift(DoubleAll(low, 6)) == DoubleAll(Shift(low), 6)
  {
    hide DoubleAll, Double, Shift, ShiftLeft;
    DoubleZero();
    NoMoreElements(low, 5);
    DoubleAppended(low, 0, 5);
    ShiftsUp(low);
    ShiftsUp(DoubleAll(low, 5));
  }

  lemma ShiftsUp(c: nat)
    requires c < Pow2(25)
    ensures Shift(c) == ShiftLeft(c, 5)
  {
    SmallHasNoTop(c, 25);
    NothingSelected(0);
    XorZero(ShiftLeft(c, 5));
  }

  /** The element that is shifted out comes back as so many times the generator polynomial. */
  lemma TopPart(top: nat)
    requires top < Pow2(5)
    ensures Selected(Double(top), 0) == DoubleAll(Selected(top, 0), 6)
  {
    hide Selected, DoubleAll, Double, Xor, Bit;
    assert Pow2(5) == 32;
    NothingSelected(0);
    DoubleZero();
    NoMoreElements(0, 0);
    AllZero(6);
    BasisOfFive(top, 5);
  }

  lemma {:induction false} AllZero(n: nat)
    ensures DoubleAll(0, n) == 0
    decreases n
  {
    hide Double;
    if n > 0 {
      AllZero(n - 1);
      DoubleZero();
      assert ShiftRight(0, 5) == 0 && LowBits(0, 5) == 0;
    }
  }

  /** It is enough to know it of the powers of two. */
  lemma {:induction false} BasisOfFive(top: nat, k: nat)
    requires top < Pow2(k) && k <= 5
    ensures Selected(Double(top), 0) == DoubleAll(Selected(top, 0), 6)
    decreases k
  {
    hide Selected, DoubleAll, Double, Xor;
    if k == 0 {
      NothingSelected(0);
      DoubleZero();
      AllZero(6);
    } else if top < Pow2(k - 1) {
      BasisOfFive(top, k - 1);
    } else {
      var rest: nat := top - Pow2(k - 1);
      SplitTop(rest, k - 1);
      BasisOfFive(rest, k - 1);
      PowerOfTwo(k - 1);
      DoubleLinear(Pow2(k - 1), rest);
      SelectedLinear(Pow2(k - 1), rest, 0);
      SelectedLinear(Double(Pow2(k - 1)), Double(rest), 0);
      DoubleAllLinear(Selected(Pow2(k - 1), 0), Selected(rest, 0), 6);
    }
  }

  lemma SplitTop(rest: nat, k: nat)
    requires rest < Pow2(k)
    ensures Xor(Pow2(k), rest) == Pow2(k) + rest
  {
    XorBelow(1, rest, k);
    ShiftLeftIsMul(1, k);
  }

  // ---------- the generators, element by element ----------

  function Doubled(ds: seq<nat>): (es: seq<nat>)
    ensures |es| == |ds|
  {
    seq(|ds|, i requires 0 <= i < |ds| => Double(ds[i]))
  }

  lemma {:induction false} DoubleAllIsDoubled(ds: seq<nat>)
    requires AreDigits(ds, 5)
    ensures DoubleAll(Value(ds, 5), |ds|) == Value(Doubled(ds), 5)
    decreases |ds|
  {
    hide DoubleAll, Double, ShiftLeft;
    if ds == [] {
      NoElements();
    } else {
      var n := |ds| - 1;
      DoubleAllIsDoubled(ds[..n]);
      DoubleAppended(Value(ds[..n], 5), ds[n], n);
      assert Doubled(ds)[..n] == Doubled(ds[..n]);
    }
  }

  lemma NoElements()
    ensures DoubleAll(0, 0) == 0
  {
  }

  /** The elements of the five generators: each but the first is twice the one before. */
  function Elements(k: nat): (ds: seq<nat>)
    requires k < 5
    ensures |ds| == 6 && AreDigits(ds, 5)
  {
    assert Pow2(5) == 32;
    match k
    case 0 => [29, 22, 20, 21, 29, 18]
    case 1 => [19, 5, 1, 3, 19, 13]
    case 2 => [15, 10, 2, 6, 15, 26]
    case 3 => [30, 20, 4, 12, 30, 29]
    case _ => [21, 1, 8, 24, 21, 19]
  }

  lemma Times32(x: nat)
    ensures ShiftLeft(x, 5) == 32 * x
  {
    ShiftLeftIsMul(x, 5);
    assert Pow2(5) == 32;
  }

  lemma ValueOfSix(a: nat, b: nat, c: nat, d: nat, e: nat, f: nat)
    ensures Value([a, b, c, d, e, f], 5) == 32 * (32 * (32 * (32 * (32 * a + b) + c) + d) + e) + f
  {
    hide Value, ShiftLeft;
    ValueOfThree(a, b, c);
    ValueAppend([a, b, c], d, 5);
    ValueAppend([a, b, c, d], e, 5);
    ValueAppend([a, b, c, d, e], f, 5);
    assert [a, b, c] + [d] == [a, b, c, d] && [a, b, c, d] + [e] == [a, b, c, d, e];
    assert [a, b, c, d, e] + [f] == [a, b, c, d, e, f];
    Times32(Value([a, b, c], 5));
    Times32(Value([a, b, c, d], 5));
    Times32(Value([a, b, c, d, e], 5));
  }

  lemma ValueOfThree(a: nat, b: nat, c: nat)
    ensures Value([a, b, c], 5) == 32 * (32 * a + b) + c
  {
    hide Value, ShiftLeft;
    ValueOfNone();
    ValueAppend([], a, 5);
    ValueAppend([a], b, 5);
    ValueAppend([a, b], c, 5);
    assert [] + [a] == [a] && [a] + [b] == [a, b] && [a, b] + [c] == [a, b, c];
    Times32(0);
    Times32(a);
    Times32(Value([a, b], 5));
  }

  lemma ValueOfNone()
    ensures Value([], 5) == 0
  {
  }

  lemma GeneratorElements(k: nat)
    requires k < 5
    ensures GEN[k] == Value(Elements(k), 5)
  {
    hide Value;
    var ds := Elements(k);
    ValueOfSix(ds[0], ds[1], ds[2], ds[3], ds[4], ds[5]);
    assert ds == [ds[0], ds[1], ds[2], ds[3], ds[4], ds[5]];
  }

  /** Doubling in the field, below and above its top bit. */
  lemma DoubleIs(d: nat)
    requires d < 32
    ensures d < 16 ==> Double(d) == 2 * d
    ensures d >= 16 ==> Double(d) == Xor(2 * d - 32, 9)
  {
    var up := ShiftLeft(d, 1);
    assert Pow2(5) == 32;
    assert Pow2(6) == 64;
    assert up == 2 * ShiftLeft(d, 0) == 2 * d;
    TopBit(d);
    Reassemble(up, 5);
    ShiftLeftIsMul(ShiftRight(up, 5), 5);
    TopRange(up, 5, 1);
    XorZero(LowBits(up, 5));
  }

  lemma TopBit(d: nat)
    requires d < 32
    ensures Bit(d, 4) <==> d >= 16
  {
    var a, b, c, e := d / 2, d / 2 / 2, d / 2 / 2 / 2, d / 2 / 2 / 2 / 2;
    assert Bit(d, 4) == Bit(a, 3) && Bit(a, 3) == Bit(b, 2) && Bit(b, 2) == Bit(c, 1) && Bit(c, 1) == Bit(e, 0);
  }

  lemma DoubledElements(k: nat)
    requires k < 4
    ensures Doubled(Elements(k)) == Elements(k + 1)
  {
    hide Double, Xor;
    var ds := Elements(k);
    Nines();
    forall i | 0 <= i < 6
      ensures Double(ds[i]) == Elements(k + 1)[i]
    {
      DoubleIs(ds[i]);
    }
  }

  lemma DoubledLast()
    ensures Doubled(Elements(4)) == [3, 2, 16, 25, 3, 15]
  {
    hide Double, Xor;
    var ds := Elements(4);
    Nines();
    forall i | 0 <= i < 6
      ensures Double(ds[i]) == [3, 2, 16, 25, 3, 15][i]
    {
      DoubleIs(ds[i]);
    }
  }

  lemma Nines()
    ensures Xor(26, 9) == 19 && Xor(12, 9) == 5 && Xor(8, 9) == 1 && Xor(10, 9) == 3 && Xor(4, 9) == 13
    ensures Xor(6, 9) == 15 && Xor(28, 9) == 21 && Xor(20, 9) == 29 && Xor(16, 9) == 25 && Xor(22, 9) == 31
  {
    hide Xor;
    WithNine(13);
    WithNine(6);
    WithNine(4);
    WithNine(5);
    WithNine(2);
    WithNine(3);
    WithNine(14);
    WithNine(10);
    WithNine(8);
    WithNine(11);
  }

  /** The lowest and the fourth bit turned over. */
  lemma WithNine(half: nat)
    requires half < 16
    ensures Xor(2 * half, 9) == 2 * half + 1 + if half / 4 % 2 == 0 then 8 else -8
  {
    hide Xor;
    var quarter, eighth, last := half / 2, half / 4, half / 8;
    XorAppend(half, 0, 4, 1);
    Halves(half, quarter, half % 2, 4);
    Halves(quarter, eighth, quarter % 2, 2);
    XorAppend(last, eighth % 2, 0, 1);
    XorZero(last);
  }

  lemma Halves(x: nat, half: nat, bit: nat, y: nat)
    requires x == 2 * half + bit && bit < 2 && y % 2 == 0
    ensures Xor(x, y) == 2 * Xor(half, y / 2) + bit
  {
    hide Xor;
    XorAppend(half, bit, y / 2, 0);
  }

  /** Sums of registers are sums of their elements. */
  lemma {:induction false} ValueOfSum(ds: seq<nat>, es: seq<nat>)
    requires AreDigits(ds, 5) && AreDigits(es, 5) && |ds| == |es|
    ensures Xor(Value(ds, 5), Value(es, 5)) == Value(Added(ds, es), 5)
    decreases |ds|
  {
    hide Xor, ShiftLeft;
    if ds == [] {
      XorZero(0);
    } else {
      var n := |ds| - 1;
      ValueOfSum(ds[..n], es[..n]);
      JoinedSum(Value(ds[..n], 5), Value(es[..n], 5), ds[n], es[n]);
      assert Added(ds, es)[..n] == Added(ds[..n], es[..n]);
    }
  }

  function Added(ds: seq<nat>, es: seq<nat>): (sums: seq<nat>)
    requires |ds| == |es|
    ensures |sums| == |ds|
  {
    seq(|ds|, i requires 0 <= i < |ds| => Xor(ds[i], es[i]))
  }

  lemma LastIsSum()
    ensures Added(Elements(0), Elements(3)) == [3, 2, 16, 25, 3, 15]
  {
    hide Xor;
    FewSums();
  }

  lemma FewSums()
    ensures Xor(29, 30) == 3 && Xor(22, 20) == 2 && Xor(20, 4) == 16 && Xor(21, 12) == 25 && Xor(18, 29) == 15
  {
    hide Xor;
    XorAppend(14, 1, 15, 0);
    XorAppend(7, 0, 7, 1);
    XorSelf(7);
    XorAppend(11, 0, 10, 0);
    XorAppend(5, 1, 5, 0);
    XorSelf(5);
    XorAppend(10, 0, 2, 0);
    XorAppend(5, 0, 1, 0);
    XorAppend(2, 1, 0, 1);
    XorZero(2);
    XorAppend(10, 1, 6, 0);
    XorAppend(5, 0, 3, 0);
    XorAppend(2, 1, 1, 1);
    XorAppend(1, 0, 0, 1);
    XorZero(1);
    XorAppend(9, 0, 14, 1);
    XorAppend(4, 1, 7, 0);
    XorAppend(2, 0, 3, 1);
    XorAppend(1, 0, 1, 1);
    XorSelf(1);
  }

  lemma {:induction false} SelectedPower(k: nat, i: nat)
    requires k < 5 && i <= 5
    ensures Selected(Pow2(k), i) == if i <= k then GEN[k] else 0
    decreases 5 - i
  {
    hide Bit, Pow2, Xor;
    if i < 5 {
      SelectedPower(k, i + 1);
      PowerBit(k, i);
      XorZero(GEN[i]);
      XorZero(GEN[k]);
      XorZero(0);
    }
  }

  lemma {:induction false} PowerBit(k: nat, i: nat)
    ensures Bit(Pow2(k), i) <==> i == k
    decreases k
  {
    if k > 0 && i > 0 {
      PowerBit(k - 1, i - 1);
    } else if i > 0 {
      ZeroBit(i - 1);
    }
  }

  /** Each generator is twice the one before, and twice the last is the sum of the first and the fourth, for the fifth
      power of `a` is `a^3 + 1`. */
  lemma PowerOfTwo(k: nat)
    requires k < 5
    ensures Selected(Double(Pow2(k)), 0) == DoubleAll(Selected(Pow2(k), 0), 6)
  {
    hide Selected, DoubleAll, Double, Xor, Value, Bit;
    SelectedPower(k, 0);
    GeneratorElements(k);
    DoubleAllIsDoubled(Elements(k));
    PowersDouble(k);
    if k < 4 {
      DoubledElements(k);
      GeneratorElements(k + 1);
      SelectedPower(k + 1, 0);
    } else {
      DoubledLast();
      LastIsSum();
      GeneratorElements(0);
      GeneratorElements(3);
      ValueOfSum(Elements(0), Elements(3));
      SelectedPower(0, 0);
      SelectedPower(3, 0);
      SelectedLinear(1, 8, 0);
    }
  }

  lemma PowersDouble(k: nat)
    requires k < 5
    ensures k < 4 ==> Double(Pow2(k)) == Pow2(k + 1)
    ensures k == 4 ==> Double(Pow2(k)) == Xor(1, 8)
    ensures Pow2(0) == 1 && Pow2(3) == 8
  {
    hide Double, Xor;
    assert Pow2(3) == 8;
    assert Pow2(4) == 16;
    DoubleIs(Pow2(k));
    XorZero(9);
    XorAppend(0, 1, 4, 0);
    XorZero(4);
  }

  /** A step of the register is linear over the field: twice the register leads to twice what the register leads to.
      With `ShiftLinear` this makes it multiplication of the register by x, modulo some polynomial. */
  lemma ShiftIsFieldLinear(c: nat)
    requires c < STATES
    ensures Shift(DoubleAll(c, 6)) == DoubleAll(Shift(c), 6)
  {
    hide Shift, DoubleAll, Double, Xor, ShiftLeft, ShiftRight, LowBits, Selected;
    var top, low := ShiftRight(c, 25), LowBits(c, 25);
    var high := ShiftLeft(top, 25);
    TopRange(c, 25, 5);
    Reassemble(c, 25);
    XorBelow(top, low, 25);
    TopShifts(top);
    TopPart(top);
    LowPart(low);
    DoubleRange(top);
    TopShifts(Double(top));
    DoubleTop(top);
    DoubleAllLinear(high, low, 6);
    ShiftLinear(DoubleAll(high, 6), DoubleAll(low, 6));
    ShiftLinear(high, low);
    DoubleAllLinear(Shift(high), Shift(low), 6);
  }

  lemma TopShifts(top: nat)
    requires top < Pow2(5)
    ensures Shift(ShiftLeft(top, 25)) == Selected(top, 0)
  {
    hide Selected, Xor;
    ShiftBack(top, 0, 25, 0);
    NoShift(top);
    ShiftLeftZero(0, 5);
    XorZero(Selected(top, 0));
  }

  lemma DoubleTop(top: nat)
    requires top < Pow2(5)
    ensures DoubleAll(ShiftLeft(top, 25), 6) == ShiftLeft(Double(top), 25)
  {
    hide DoubleAll, Double, ShiftLeft, ShiftRight, LowBits;
    FiveByFive(top);
    FiveByFive(Double(top));
    DoubleZero();
    OneElement(top);
    var c1 := ShiftLeft(top, 5);
    var c2 := ShiftLeft(c1, 5);
    var c3 := ShiftLeft(c2, 5);
    var c4 := ShiftLeft(c3, 5);
    DoubleAppended(top, 0, 1);
    DoubleAppended(c1, 0, 2);
    DoubleAppended(c2, 0, 3);
    DoubleAppended(c3, 0, 4);
    DoubleAppended(c4, 0, 5);
  }

  lemma OneElement(top: nat)
    requires top < Pow2(5)
    ensures DoubleAll(top, 1) == Double(top)
  {
    hide Double;
    SmallHasNoTop(top, 5);
    ShiftLeftZero(0, 5);
    assert DoubleAll(ShiftRight(top, 5), 0) == 0;
  }

  lemma FiveByFive(x: nat)
    ensures ShiftLeft(x, 25) == ShiftLeft(ShiftLeft(ShiftLeft(ShiftLeft(ShiftLeft(x, 5), 5), 5), 5), 5)
  {
    ShiftLeftAdd(x, 5, 5);
    ShiftLeftAdd(x, 10, 5);
    ShiftLeftAdd(x, 15, 5);
    ShiftLeftAdd(x, 20, 5);
  }

  lemma {:induction false} ShiftLeftAdd(x: nat, a: nat, b: nat)
    ensures ShiftLeft(x, a + b) == ShiftLeft(ShiftLeft(x, a), b)
    decreases b
  {
    if b == 0 {
      assert a + b == a;
    } else {
      ShiftLeftAdd(x, a, b - 1);
      assert a + b - 1 == a + (b - 1);
    }
  }

  // ---------- the generator polynomial ----------

  /** And the polynomial is that of BIP-173: what a one in the register turns into when it is shifted out. */
  lemma GeneratorPolynomial()
    ensures Cut(Run(1, Zeros(6)), 6, 5) == [29, 22, 20, 21, 29, 18]
  {
    hide Run, Cut, Value;
    OneShiftedOut();
    GeneratorElements(0);
    ValueRoundTrip(Elements(0), 5);
  }

  lemma OneShiftedOut()
    ensures Run(1, Zeros(6)) == GEN[0]
  {
    hide Shift, Zeros, Selected, Run, ShiftLeft;
    OnesShift();
    RunZeros(1, 5);
    RunZeros(0x20, 4);
    RunZeros(0x400, 3);
    RunZeros(0x8000, 2);
    RunZeros(0x10_0000, 1);
    RunZeros(0x200_0000, 0);
    SelectedPower(0, 0);
    TopShifts(1);
    NothingLeft(GEN[0]);
  }

  lemma NothingLeft(c: nat)
    ensures Run(c, Zeros(0)) == c
  {
  }

  lemma OnesShift()
    ensures Shift(1) == 0x20 && Shift(0x20) == 0x400 && Shift(0x400) == 0x8000 && Shift(0x8000) == 0x10_0000
    ensures Shift(0x10_0000) == 0x200_0000 && 0x200_0000 == ShiftLeft(1, 25) && 1 < Pow2(5) && Pow2(0) == 1
  {
    hide Shift, ShiftLeft;
    assert Pow2(5) == 32;
    assert Pow2(10) == 1024;
    assert Pow2(20) == 0x10_0000;
    assert Pow2(25) == 0x200_0000;
    ShiftsUp(1);
    ShiftsUp(0x20);
    ShiftsUp(0x400);
    ShiftsUp(0x8000);
    ShiftsUp(0x10_0000);
    Times32(1);
    Times32(0x20);
    Times32(0x400);
    Times32(0x8000);
    Times32(0x10_0000);
    ShiftLeftIsMul(1, 25);
  }

  // ---------- a published string ----------

  function Top(x: nat, w: nat): (top: nat)
    ensures top <= x
  {
    if x >= w then w else 0
  }

  function Differing(p: nat, q: nat): nat {
    if p == q then 0 else if p > q then p - q else q - p
  }

  /** The sum of two elements, bit by bit from the top. */
  function Sum5(a: nat, b: nat): nat {
    var (a8, b8) := (a - Top(a, 16), b - Top(b, 16));
    var (a4, b4) := (a8 - Top(a8, 8), b8 - Top(b8, 8));
    var (a2, b2) := (a4 - Top(a4, 4), b4 - Top(b4, 4));
    var (a1, b1) := (a2 - Top(a2, 2), b2 - Top(b2, 2));
    Differing(Top(a, 16), Top(b, 16)) + Differing(Top(a8, 8), Top(b8, 8)) + Differing(Top(a4, 4), Top(b4, 4))
    + Differing(Top(a2, 2), Top(b2, 2)) + Differing(Top(a1, 1), Top(b1, 1))
  }

  lemma SumIsXor(a: nat, b: nat)
    requires a < 32 && b < 32
    ensures Xor(a, b) == Sum5(a, b)
  {
    hide Xor, Differing, Top;
    var a8, b8 := a - Top(a, 16), b - Top(b, 16);
    var a4, b4 := a8 - Top(a8, 8), b8 - Top(b8, 8);
    var a2, b2 := a4 - Top(a4, 4), b4 - Top(b4, 4);
    var a1, b1 := a2 - Top(a2, 2), b2 - Top(b2, 2);
    Powers();
    TopOfXor(a, b, 4);
    TopOfXor(a8, b8, 3);
    TopOfXor(a4, b4, 2);
    TopOfXor(a2, b2, 1);
    TopOfXor(a1, b1, 0);
    XorZero(0);
  }

  lemma TopOfXor(a: nat, b: nat, k: nat)
    requires a < 2 * Pow2(k) && b < 2 * Pow2(k)
    ensures var w := Pow2(k);
            && a - Top(a, w) < w && b - Top(b, w) < w
            && Xor(a, b) == Differing(Top(a, w), Top(b, w)) + Xor(a - Top(a, w), b - Top(b, w))
  {
    hide Xor, Pow2;
    var w := Pow2(k);
    var p, q := a - Top(a, w), b - Top(b, w);
    TopSplit(a, k, p);
    TopSplit(b, k, q);
    XorSwap(Top(a, w), p, Top(b, w), q);
    XorSelf(w);
    XorZero(w);
    XorZero(0);
    XorRange(p, q, k);
    TopSplit(Differing(Top(a, w), Top(b, w)) + Xor(p, q), k, Xor(p, q));
  }

  lemma TopSplit(x: nat, k: nat, low: nat)
    requires low < Pow2(k) && (x == low || x == Pow2(k) + low)
    ensures x == Xor(Top(x, Pow2(k)), low)
  {
    if x == low {
      XorZero(low);
    } else {
      SplitTop(low, k);
    }
  }

  lemma AddedIs(ds: seq<nat>, es: seq<nat>)
    requires |ds| == |es| && AreDigits(ds, 5) && AreDigits(es, 5)
    ensures forall i :: 0 <= i < |ds| ==> Added(ds, es)[i] == Sum5(ds[i], es[i])
    ensures AreDigits(Added(ds, es), 5)
  {
    hide Xor, Sum5;
    assert Pow2(5) == 32;
    forall i | 0 <= i < |ds|
      ensures Added(ds, es)[i] == Sum5(ds[i], es[i]) < 32
    {
      SumIsXor(ds[i], es[i]);
      XorRange(ds[i], es[i], 5);
    }
  }

  /** A step, element by element: the first is shifted out, and comes back as the generators it selects. */
  lemma StepOnElements(ds: seq<nat>, v: nat, selected: seq<nat>)
    requires |ds| == 6 && AreDigits(ds, 5) && v < 32 && |selected| == 6 && AreDigits(selected, 5)
    requires Selected(ds[0], 0) == Value(selected, 5)
    ensures Step(Value(ds, 5), v) == Value(Added(ds[1..] + [v], selected), 5)
  {
    hide Xor, Selected, Value, ShiftLeft, ShiftRight, LowBits;
    var top, low := ds[0], Value(ds[1..], 5);
    assert Pow2(5) == 32;
    ValueRange(ds[1..], 5);
    FirstElement(ds);
    ShiftBack(top, low, 25, 0);
    NoShift(top);
    StepSplits(Value(ds, 5), v);
    var kept, added := ShiftLeft(low, 5), Selected(top, 0);
    XorAssoc(kept, added, v);
    XorComm(added, v);
    XorAssoc(kept, v, added);
    XorBelow(low, v, 5);
    ValueAppend(ds[1..], v, 5);
    ValueOfSum(ds[1..] + [v], selected);
  }

  lemma {:induction false} FirstElement(ds: seq<nat>)
    requires ds != []
    ensures Value(ds, 5) == ShiftLeft(ds[0], 5 * (|ds| - 1)) + Value(ds[1..], 5)
    decreases |ds|
  {
    hide ShiftLeft;
    var n := |ds| - 1;
    if n == 0 {
      assert ds == [] + [ds[0]];
      ValueAppend([], ds[0], 5);
      ValueOfNone();
      Times32(0);
      NoShift(ds[0]);
    } else {
      var front, last := ds[..n], ds[n];
      FirstElement(front);
      assert front[1..] + [last] == ds[1..];
      ValueAppend(front[1..], last, 5);
      assert front + [last] == ds;
      ValueAppend(front, last, 5);
      Times32(Value(front, 5));
      Times32(Value(front[1..], 5));
      Times32(ShiftLeft(ds[0], 5 * (n - 1)));
      ShiftLeftAdd(ds[0], 5 * (n - 1), 5);
    }
  }

  lemma SelectedOf(top: nat, rest: nat, k: nat, selected: seq<nat>)
    requires k < 5 && top == Pow2(k) + rest && rest < Pow2(k) && |selected| == 6 && AreDigits(selected, 5)
    requires Selected(rest, 0) == Value(selected, 5)
    ensures Selected(top, 0) == Value(Added(Elements(k), selected), 5)
  {
    hide Selected, Value, Xor;
    SplitTop(rest, k);
    SelectedLinear(Pow2(k), rest, 0);
    SelectedPower(k, 0);
    GeneratorElements(k);
    ValueOfSum(Elements(k), selected);
  }

  /** Element by element, `sums` is the sum. */
  predicate Sums(ds: seq<nat>, es: seq<nat>, sums: seq<nat>) {
    && |ds| == 6 && |es| == 6 && |sums| == 6
    && sums[0] == Sum5(ds[0], es[0]) && sums[1] == Sum5(ds[1], es[1]) && sums[2] == Sum5(ds[2], es[2])
    && sums[3] == Sum5(ds[3], es[3]) && sums[4] == Sum5(ds[4], es[4]) && sums[5] == Sum5(ds[5], es[5])
  }

  lemma Adds(ds: seq<nat>, es: seq<nat>, sums: seq<nat>)
    requires Sums(ds, es, sums) && AreDigits(ds, 5) && AreDigits(es, 5)
    ensures Added(ds, es) == sums && AreDigits(sums, 5)
  {
    hide Xor, Sum5;
    AddedIs(ds, es);
  }

  lemma FirstThirty()
    ensures Sum5(15, 19) == 28 && Sum5(10, 5) == 15 && Sum5(2, 1) == 3 && Sum5(6, 3) == 5
    ensures Sum5(26, 13) == 23
  {
  }

  lemma SecondThirty()
    ensures Sum5(30, 28) == 2 && Sum5(20, 15) == 27 && Sum5(4, 3) == 7 && Sum5(12, 5) == 9
    ensures Sum5(29, 23) == 10
  {
  }

  lemma ThirdThirty()
    ensures Sum5(21, 2) == 23 && Sum5(1, 27) == 26 && Sum5(8, 7) == 15 && Sum5(24, 9) == 17
    ensures Sum5(19, 10) == 25
  {
  }

  lemma SumsForThirty()
    ensures Sums(Elements(2), Elements(1), [28, 15, 3, 5, 28, 23])
    ensures Sums(Elements(3), [28, 15, 3, 5, 28, 23], [2, 27, 7, 9, 2, 10])
    ensures Sums(Elements(4), [2, 27, 7, 9, 2, 10], [23, 26, 15, 17, 23, 25])
  {
    hide Sum5;
    FirstThirty();
    SecondThirty();
    ThirdThirty();
  }

  lemma SelectedThirty()
    ensures Selected(30, 0) == Value([23, 26, 15, 17, 23, 25], 5) && AreDigits([23, 26, 15, 17, 23, 25], 5)
  {
    hide Selected, Value, Xor, Added, Sums, Elements, AreDigits;
    Powers();
    SelectedPower(1, 0);
    GeneratorElements(1);
    SumsForThirty();
    var two: seq<nat> := [28, 15, 3, 5, 28, 23];
    var three: seq<nat> := [2, 27, 7, 9, 2, 10];
    Adds(Elements(2), Elements(1), two);
    SelectedOf(6, 2, 2, Elements(1));
    Adds(Elements(3), two, three);
    SelectedOf(14, 6, 3, two);
    Adds(Elements(4), three, [23, 26, 15, 17, 23, 25]);
    SelectedOf(30, 14, 4, three);
  }

  lemma SelectedEighteen()
    ensures Selected(18, 0) == Value([6, 4, 9, 27, 6, 30], 5) && AreDigits([6, 4, 9, 27, 6, 30], 5)
  {
    hide Selected, Value, Xor, Added, Elements, AreDigits;
    Powers();
    SelectedPower(1, 0);
    GeneratorElements(1);
    assert Pow2(4) == 16 && Pow2(1) == 2;
    assert Sums(Elements(4), Elements(1), [6, 4, 9, 27, 6, 30]) by { SumsForEighteen(); }
    Adds(Elements(4), Elements(1), [6, 4, 9, 27, 6, 30]);
    SelectedOf(18, 2, 4, Elements(1));
  }

  lemma FirstEighteen()
    ensures Sum5(21, 19) == 6 && Sum5(1, 5) == 4 && Sum5(8, 1) == 9 && Sum5(24, 3) == 27
    ensures Sum5(19, 13) == 30
  {
  }

  lemma SumsForEighteen()
    ensures Sums(Elements(4), Elements(1), [6, 4, 9, 27, 6, 30])
  {
    hide Sum5;
    FirstEighteen();
  }

  lemma Powers()
    ensures Pow2(0) == 1 && Pow2(1) == 2 && Pow2(2) == 4 && Pow2(3) == 8 && Pow2(4) == 16 && Pow2(5) == 32
  {
  }

  const REGISTER5: seq<nat> := [1, 3, 0, 1, 0, 0]
  const REGISTER6: seq<nat> := [30, 22, 21, 21, 29, 18]
  const REGISTER7: seq<nat> := [1, 15, 26, 12, 5, 25]
  const REGISTER8: seq<nat> := [18, 12, 24, 16, 4, 18]
  const REGISTER9: seq<nat> := [10, 28, 25, 31, 20, 30]

  lemma RegisterSums6()
    ensures Sum5(3, 29) == 30 && Sum5(0, 22) == 22 && Sum5(1, 20) == 21 && Sum5(0, 21) == 21
    ensures Sum5(0, 29) == 29 && Sum5(0, 18) == 18
  {
  }

  lemma RegisterSums7()
    ensures Sum5(22, 23) == 1 && Sum5(21, 26) == 15 && Sum5(21, 15) == 26 && Sum5(29, 17) == 12
    ensures Sum5(18, 23) == 5 && Sum5(0, 25) == 25
  {
  }

  lemma RegisterSums8()
    ensures Sum5(15, 29) == 18 && Sum5(26, 22) == 12 && Sum5(12, 20) == 24 && Sum5(5, 21) == 16
    ensures Sum5(25, 29) == 4 && Sum5(0, 18) == 18
  {
  }

  lemma RegisterSums9()
    ensures Sum5(12, 6) == 10 && Sum5(24, 4) == 28 && Sum5(16, 9) == 25 && Sum5(4, 27) == 31
    ensures Sum5(18, 6) == 20 && Sum5(0, 30) == 30
  {
  }

  lemma SumsForRegisters()
    ensures Sums(REGISTER5[1..] + [0], Elements(0), REGISTER6)
    ensures Sums(REGISTER6[1..] + [0], [23, 26, 15, 17, 23, 25], REGISTER7)
    ensures Sums(REGISTER7[1..] + [0], Elements(0), REGISTER8)
    ensures Sums(REGISTER8[1..] + [0], [6, 4, 9, 27, 6, 30], REGISTER9)
  {
    hide Sum5;
    RegisterSums6();
    RegisterSums7();
    RegisterSums8();
    RegisterSums9();
  }

  /** The register of the prefix "a", no data, and six zeros. */
  lemma PublishedRegister()
    ensures Run(1, [3, 0, 1, 0, 0, 0, 0, 0, 0]) == Value(REGISTER9, 5)
  {
    hide Selected, Value, Xor, Added, Step, Run, Sums, Elements;
    Powers();
    FirstFive(REGISTER5);
    SelectedPower(0, 0);
    GeneratorElements(0);
    SelectedThirty();
    SelectedEighteen();
    SumsForRegisters();
    Stepped(REGISTER5, Elements(0), REGISTER6);
    Stepped(REGISTER6, [23, 26, 15, 17, 23, 25], REGISTER7);
    Stepped(REGISTER7, Elements(0), REGISTER8);
    Stepped(REGISTER8, [6, 4, 9, 27, 6, 30], REGISTER9);
    FourMore(Value(REGISTER5, 5));
    RunSplit(1, [3, 0, 1, 0, 0], [0, 0, 0, 0]);
    assert [3, 0, 1, 0, 0] + [0, 0, 0, 0] == [3, 0, 1, 0, 0, 0, 0, 0, 0];
  }

  lemma FourMore(c: nat)
    ensures Run(c, [0, 0, 0, 0]) == Step(Step(Step(Step(c, 0), 0), 0), 0)
  {
    hide Step;
    var one := Step(c, 0);
    var two := Step(one, 0);
    var three := Step(two, 0);
    var four := Step(three, 0);
    assert [0, 0, 0, 0][1..] == [0, 0, 0] && [0, 0, 0][1..] == [0, 0] && [0, 0][1..] == [0] && [0][1..] == [];
    assert Run(four, []) == four;
    assert Run(three, [0]) == Run(four, []);
    assert Run(two, [0, 0]) == Run(three, [0]);
    assert Run(one, [0, 0, 0]) == Run(two, [0, 0]);
  }

  lemma Stepped(ds: seq<nat>, selected: seq<nat>, next: seq<nat>)
    requires |ds| == 6 && AreDigits(ds, 5) && AreDigits(selected, 5)
    requires Selected(ds[0], 0) == Value(selected, 5) && Sums(ds[1..] + [0], selected, next)
    ensures Step(Value(ds, 5), 0) == Value(next, 5) && AreDigits(next, 5)
  {
    hide Selected, Value, Xor, Added, Step, Sum5;
    assert Pow2(5) == 32;
    StepOnElements(ds, 0, selected);
    Adds(ds[1..] + [0], selected, next);
  }

  lemma FirstFive(packed: seq<nat>)
    requires packed == [1, 3, 0, 1, 0, 0]
    ensures Run(1, [3, 0, 1, 0, 0]) == Value(packed, 5)
  {
    hide Value, Step;
    assert Pow2(5) == 32;
    PackedRun(packed);
    FirstSymbol(0, 1);
    assert packed[1..] == [3, 0, 1, 0, 0];
  }
}
