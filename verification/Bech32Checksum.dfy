/** The Bech32 checksum (Checksum part of BIP-173): the register `polymod` runs the symbols through, the checksum
    made from it, and the errors it is sure to detect. Every value is non-negative and every register is below
    2^30, as is proved, so the 32-bit integers of the source never wrap. */
module Bech32Checksum {
  import opened Bits

  const STATES: nat := Pow2(30)        // every register value is below this
  const GEN: seq<nat> := [0x3b6a57b2, 0x26508e6d, 0x1ea119fa, 0x3d4233dd, 0x2a1462b3]

  // ---------- the register ----------

  /** The generators selected by the bits of `top` from bit `i` on, added to `chk`. */
  function Feedback(chk: nat, top: nat, i: nat): nat
    requires i <= 5
    decreases 5 - i
  {
    if i == 5 then chk else Feedback(if Bit(top, i) then Xor(chk, GEN[i]) else chk, top, i + 1)
  }

  function Step(c: nat, v: nat): nat {
    Feedback(Xor(ShiftLeft(LowBits(c, 25), 5), v), ShiftRight(c, 25), 0)
  }

  function Run(c: nat, values: seq<nat>): nat
    decreases |values|
  {
    if values == [] then c else Run(Step(c, values[0]), values[1..])
  }

  method Polymod(values: seq<nat>) returns (chk: nat)
    ensures chk == Run(1, values)
  {
    hide LowBits, ShiftLeft, ShiftRight, Xor, Bit;
    chk := 1;
    for k := 0 to |values|
      invariant Run(chk, values[k..]) == Run(1, values)
    {
      ghost var next := Step(chk, values[k]);
      RunNext(chk, values, k);
      var v := values[k];
      var top := ShiftRight(chk, 25);
      chk := Xor(ShiftLeft(LowBits(chk, 25), 5), v);
      for i := 0 to 5
        invariant Feedback(chk, top, i) == next
      {
        if Bit(top, i) { chk := Xor(chk, GEN[i]); }
      }
    }
  }

  lemma RunNext(c: nat, values: seq<nat>, k: nat)
    requires k < |values|
    ensures Run(c, values[k..]) == Run(Step(c, values[k]), values[k + 1..])
  {
    assert values[k..][1..] == values[k + 1..];
  }

  lemma {:induction false} RunSplit(c: nat, a: seq<nat>, b: seq<nat>)
    ensures Run(c, a + b) == Run(Run(c, a), b)
    decreases |a|
  {
    if a == [] {
      assert a + b == b;
    } else {
      assert (a + b)[1..] == a[1..] + b;
      RunSplit(Step(c, a[0]), a[1..], b);
    }
  }

  // ---------- one step is linear ----------

  /** The sum of the generators selected by the bits of `top` from bit `i` on. */
  function Selected(top: nat, i: nat): nat
    requires i <= 5
    decreases 5 - i
  {
    if i == 5 then 0 else Xor(if Bit(top, i) then GEN[i] else 0, Selected(top, i + 1))
  }

  /** What one step does to the register alone. */
  function Shift(c: nat): nat {
    Xor(ShiftLeft(LowBits(c, 25), 5), Selected(ShiftRight(c, 25), 0))
  }

  lemma {:induction false} FeedbackIsSum(chk: nat, top: nat, i: nat)
    requires i <= 5
    ensures Feedback(chk, top, i) == Xor(chk, Selected(top, i))
    decreases 5 - i
  {
    XorZero(chk);
    if i < 5 {
      var g := if Bit(top, i) then GEN[i] else 0;
      FeedbackIsSum(Xor(chk, g), top, i + 1);
      XorAssoc(chk, g, Selected(top, i + 1));
    }
  }

  lemma StepSplits(c: nat, v: nat)
    ensures Step(c, v) == Xor(Shift(c), v)
  {
    var kept, added := ShiftLeft(LowBits(c, 25), 5), Selected(ShiftRight(c, 25), 0);
    FeedbackIsSum(Xor(kept, v), ShiftRight(c, 25), 0);
    XorAssoc(kept, v, added);
    XorComm(v, added);
    XorAssoc(kept, added, v);
  }

  lemma {:induction false} SelectedLinear(s: nat, t: nat, i: nat)
    requires i <= 5
    ensures Selected(Xor(s, t), i) == Xor(Selected(s, i), Selected(t, i))
    decreases 5 - i
  {
    if i == 5 {
      XorZero(0);
    } else {
      SelectedLinear(s, t, i + 1);
      XorBit(s, t, i);
      var p, q := if Bit(s, i) then GEN[i] else 0, if Bit(t, i) then GEN[i] else 0;
      XorSwap(p, Selected(s, i + 1), q, Selected(t, i + 1));
      XorSelf(GEN[i]);
      XorZero(GEN[i]);
      XorZero(0);
    }
  }

  lemma ShiftLinear(a: nat, b: nat)
    ensures Shift(Xor(a, b)) == Xor(Shift(a), Shift(b))
  {
    XorShiftRight(a, b, 25);
    XorLowBits(a, b, 25);
    XorShiftLeft(LowBits(a, 25), LowBits(b, 25), 5);
    SelectedLinear(ShiftRight(a, 25), ShiftRight(b, 25), 0);
    XorSwap(ShiftLeft(LowBits(a, 25), 5), ShiftLeft(LowBits(b, 25), 5),
            Selected(ShiftRight(a, 25), 0), Selected(ShiftRight(b, 25), 0));
  }

  // ---------- one step loses nothing ----------

  lemma GeneratorRange(i: nat)
    requires i < 5
    ensures GEN[i] < STATES
  {
    assert Pow2(10) == 1024;
    assert Pow2(20) == 0x10_0000;
    assert Pow2(30) == 0x4000_0000;
  }

  lemma {:induction false} SelectedRange(top: nat, i: nat)
    requires i <= 5
    ensures Selected(top, i) < STATES
    decreases 5 - i
  {
    if i < 5 {
      SelectedRange(top, i + 1);
      GeneratorRange(i);
      XorRange(if Bit(top, i) then GEN[i] else 0, Selected(top, i + 1), 30);
    }
  }

  lemma ShiftRange(c: nat)
    ensures Shift(c) < STATES
  {
    hide Xor, Selected, ShiftLeft, ShiftRight, LowBits;
    ShiftLeftRange(LowBits(c, 25), 25, 5);
    SelectedRange(ShiftRight(c, 25), 0);
    XorRange(ShiftLeft(LowBits(c, 25), 5), Selected(ShiftRight(c, 25), 0), 30);
  }

  lemma StepRange(c: nat, v: nat)
    requires v < STATES
    ensures Step(c, v) < STATES
  {
    ShiftRange(c);
    StepSplits(c, v);
    XorRange(Shift(c), v, 30);
  }

  predicate Contributes(top: nat, i: nat, k: nat)
    requires i < 5
  {
    Bit(top, i) && Bit(GEN[i], k)
  }

  lemma SelectedBit(top: nat, i: nat, k: nat)
    requires i < 5
    ensures Bit(Selected(top, i), k) == (Contributes(top, i, k) != Bit(Selected(top, i + 1), k))
  {
    XorBit(if Bit(top, i) then GEN[i] else 0, Selected(top, i + 1), k);
    ZeroBit(k);
  }

  /** Bit `k` of the feedback is the parity of the selected generators that have it. */
  lemma FeedbackBit(top: nat, k: nat)
    ensures Bit(Selected(top, 0), k)
         == (Contributes(top, 0, k) != (Contributes(top, 1, k) != (Contributes(top, 2, k)
            != (Contributes(top, 3, k) != Contributes(top, 4, k)))))
  {
    hide Selected, Contributes, Bit;
    SelectedBit(top, 0, k);
    SelectedBit(top, 1, k);
    FeedbackTail(top, k);
  }

  lemma FeedbackTail(top: nat, k: nat)
    ensures Bit(Selected(top, 2), k) == (Contributes(top, 2, k) != (Contributes(top, 3, k) != Contributes(top, 4, k)))
  {
    SelectedBit(top, 2, k);
    SelectedBit(top, 3, k);
    SelectedBit(top, 4, k);
    ZeroBit(k);
  }

  lemma GeneratorBits()
    ensures !Bit(GEN[0], 0) && Bit(GEN[1], 0) && !Bit(GEN[2], 0) && Bit(GEN[3], 0) && Bit(GEN[4], 0)
    ensures Bit(GEN[0], 1) && !Bit(GEN[1], 1) && Bit(GEN[2], 1) && !Bit(GEN[3], 1) && Bit(GEN[4], 1)
    ensures !Bit(GEN[0], 2) && Bit(GEN[1], 2) && !Bit(GEN[2], 2) && Bit(GEN[3], 2) && !Bit(GEN[4], 2)
    ensures !Bit(GEN[0], 3) && Bit(GEN[1], 3) && Bit(GEN[2], 3) && Bit(GEN[3], 3) && !Bit(GEN[4], 3)
    ensures Bit(GEN[0], 4) && !Bit(GEN[1], 4) && Bit(GEN[2], 4) && Bit(GEN[3], 4) && Bit(GEN[4], 4)
  {
  }

  /** The low five bits of the feedback determine the five bits shifted out. */
  lemma TopFromLowBits(top: nat)
    requires top < Pow2(5)
    requires forall k: nat :: k < 5 ==> !Bit(Selected(top, 0), k)
    ensures top == 0
  {
    GeneratorBits();
    FeedbackBit(top, 0);
    FeedbackBit(top, 1);
    FeedbackBit(top, 2);
    FeedbackBit(top, 3);
    FeedbackBit(top, 4);
    assert !Bit(top, 0) && !Bit(top, 1) && !Bit(top, 2) && !Bit(top, 3) && !Bit(top, 4);
    NoBits(top, 5);
  }

  lemma {:induction false} NothingSelected(i: nat)
    requires i <= 5
    ensures Selected(0, i) == 0
    decreases 5 - i
  {
    if i < 5 {
      NothingSelected(i + 1);
      ZeroBit(i);
      XorZero(0);
    }
  }

  lemma ShiftKernel(c: nat)
    requires c < STATES && Shift(c) == 0
    ensures c == 0
  {
    var low, top := LowBits(c, 25), ShiftRight(c, 25);
    forall k: nat | k < 5 ensures !Bit(Selected(top, 0), k) {
      LowBitsClear(low, 5, k);
      XorBit(ShiftLeft(low, 5), Selected(top, 0), k);
      ZeroBit(k);
    }
    TopRange(c, 25, 5);
    TopFromLowBits(top);
    NothingSelected(0);
    XorZero(ShiftLeft(low, 5));
    ShiftLeftZero(low, 5);
    ShiftLeftZero(0, 25);
    Reassemble(c, 25);
  }

  lemma {:induction false} ShiftLeftZero(x: nat, k: nat)
    ensures ShiftLeft(x, k) == 0 <==> x == 0
  {
    if k > 0 { ShiftLeftZero(x, k - 1); }
  }

  lemma ShiftInjective(a: nat, b: nat)
    requires a < STATES && b < STATES && Shift(a) == Shift(b)
    ensures a == b
  {
    XorSelf(Shift(a));
    ShiftLinear(a, b);
    XorRange(a, b, 30);
    ShiftKernel(Xor(a, b));
    XorCancel(a, b);
    XorZero(b);
  }

  /** Two registers that differ still differ after one more symbol. */
  lemma StepInjective(a: nat, b: nat, v: nat)
    requires a < STATES && b < STATES && Step(a, v) == Step(b, v)
    ensures a == b
  {
    StepSplits(a, v);
    StepSplits(b, v);
    XorCancel(Shift(a), v);
    XorCancel(Shift(b), v);
    ShiftInjective(a, b);
  }

  // ---------- many steps ----------

  predicate InRange(values: seq<nat>) {
    forall i :: 0 <= i < |values| ==> values[i] < STATES
  }

  predicate Symbols(values: seq<nat>) {
    forall i :: 0 <= i < |values| ==> values[i] < 32
  }

  lemma SymbolsInRange(values: seq<nat>)
    requires Symbols(values)
    ensures InRange(values)
  {
    GeneratorRange(0);
  }

  lemma {:induction false} RunRange(c: nat, values: seq<nat>)
    requires c < STATES && InRange(values)
    ensures Run(c, values) < STATES
    decreases |values|
  {
    if values != [] {
      StepRange(c, values[0]);
      RunRange(Step(c, values[0]), values[1..]);
    }
  }

  lemma {:induction false} RunInjective(a: nat, b: nat, values: seq<nat>)
    requires a < STATES && b < STATES && InRange(values) && Run(a, values) == Run(b, values)
    ensures a == b
    decreases |values|
  {
    if values != [] {
      StepRange(a, values[0]);
      StepRange(b, values[0]);
      RunInjective(Step(a, values[0]), Step(b, values[0]), values[1..]);
      StepInjective(a, b, values[0]);
    }
  }

  function Zeros(n: nat): (z: seq<nat>)
    ensures |z| == n
  {
    if n == 0 then [] else [0] + Zeros(n - 1)
  }

  lemma RunZeros(c: nat, n: nat)
    ensures Run(c, Zeros(n + 1)) == Run(Shift(c), Zeros(n))
  {
    StepSplits(c, 0);
    XorZero(Shift(c));
    assert Zeros(n + 1)[1..] == Zeros(n);
  }

  lemma {:induction false} ZerosLinear(a: nat, b: nat, n: nat)
    ensures Run(Xor(a, b), Zeros(n)) == Xor(Run(a, Zeros(n)), Run(b, Zeros(n)))
    decreases n
  {
    if n > 0 {
      RunZeros(Xor(a, b), n - 1);
      RunZeros(a, n - 1);
      RunZeros(b, n - 1);
      ShiftLinear(a, b);
      ZerosLinear(Shift(a), Shift(b), n - 1);
    }
  }

  /** The register after some symbols is the sum of the register after as many zeros, and of the same symbols
      run from an empty register. */
  lemma {:induction false} RunIsSum(c: nat, values: seq<nat>)
    ensures Run(c, values) == Xor(Run(c, Zeros(|values|)), Run(0, values))
    decreases |values|
  {
    hide Step, Shift;
    if values == [] {
      XorZero(c);
    } else {
      var v, rest := values[0], values[1..];
      FirstSymbol(c, v);
      RunIsSum(Step(c, v), rest);
      RunIsSum(v, rest);
      RunZeros(c, |rest|);
      ZerosLinear(Shift(c), v, |rest|);
      XorAssoc(Run(Shift(c), Zeros(|rest|)), Run(v, Zeros(|rest|)), Run(0, rest));
    }
  }

  lemma FirstSymbol(c: nat, v: nat)
    ensures Step(c, v) == Xor(Shift(c), v) && Step(0, v) == v
  {
    StepSplits(c, v);
    StepSplits(0, v);
    SmallHasNoTop(0, 25);
    NothingSelected(0);
    ShiftLeftZero(0, 5);
    XorZero(0);
    XorZero(v);
  }

  lemma SymbolsAreDigits(values: seq<nat>)
    ensures Symbols(values) <==> AreDigits(values, 5)
  {
    assert Pow2(5) == 32;
  }

  /** Up to six symbols run from an empty register are only packed into it. */
  lemma {:induction false} PackedRun(values: seq<nat>)
    requires AreDigits(values, 5) && |values| <= 6
    ensures Run(0, values) == Value(values, 5)
    decreases |values|
  {
    if values != [] {
      var front, last := values[..|values| - 1], values[|values| - 1];
      assert values == front + [last];
      PackedRun(front);
      RunSplit(0, front, [last]);
      assert [last][1..] == [];
      ValueRange(front, 5);
      PowMonotone(5 * |front|, 25);
      SmallStep(Value(front, 5), last);
    }
  }

  lemma SmallStep(c: nat, v: nat)
    requires c < Pow2(25) && v < Pow2(5)
    ensures Step(c, v) == ShiftLeft(c, 5) + v
  {
    SmallHasNoTop(c, 25);
    NothingSelected(0);
    XorZero(ShiftLeft(c, 5));
    StepSplits(c, v);
    XorBelow(c, v, 5);
  }

  // ---------- the checksum ----------

  function HrpExpand(hrp: seq<nat>): (values: seq<nat>)
    ensures |values| == 2 * |hrp| + 1
  {
    seq(|hrp|, i requires 0 <= i < |hrp| => ShiftRight(hrp[i], 5)) + [0]
    + seq(|hrp|, i requires 0 <= i < |hrp| => LowBits(hrp[i], 5))
  }

  /** Position by position: the high bits of each character, a zero, and then the low five bits of each. */
  lemma ExpandedAt(hrp: seq<nat>, i: nat)
    requires i < |hrp|
    ensures HrpExpand(hrp)[i] == hrp[i] / 32 && HrpExpand(hrp)[|hrp| + 1 + i] == hrp[i] % 32
    ensures HrpExpand(hrp)[|hrp|] == 0
  {
    Split32(hrp[i]);
  }

  lemma Split32(x: nat)
    ensures ShiftRight(x, 5) == x / 32 && LowBits(x, 5) == x % 32
  {
    hide ShiftRight, LowBits;
    Reassemble(x, 5);
    ShiftLeftIsMul(ShiftRight(x, 5), 5);
    assert Pow2(5) == 32;
  }

  function Checksum(hrp: seq<nat>, data: seq<nat>): (sum: seq<nat>)
    ensures |sum| == 6 && AreDigits(sum, 5)
  {
    Cut(Xor(Run(1, HrpExpand(hrp) + data + Zeros(6)), 1), 6, 5)
  }

  lemma {:induction false} ShiftRightOnce(x: nat, k: nat)
    ensures ShiftRight(x, k) <= x
  {
    if k > 0 { ShiftRightOnce(x / 2, k - 1); }
  }

  lemma HrpInRange(hrp: seq<nat>)
    requires InRange(hrp)
    ensures InRange(HrpExpand(hrp))
  {
    var e := HrpExpand(hrp);
    GeneratorRange(0);
    assert Pow2(5) == 32;
    forall i | 0 <= i < |e| ensures e[i] < STATES {
      if i < |hrp| {
        ShiftRightOnce(hrp[i], 5);
      } else if i > |hrp| {
        assert e[i] == LowBits(hrp[i - |hrp| - 1], 5);
      }
    }
  }

  /** Whatever prefix and data, the symbols with their checksum leave 1 in the register. */
  lemma ChecksumVerifies(hrp: seq<nat>, data: seq<nat>)
    requires InRange(hrp) && Symbols(data)
    ensures Run(1, HrpExpand(hrp) + data + Checksum(hrp, data)) == 1
  {
    var values := HrpExpand(hrp) + data;
    HrpInRange(hrp);
    SymbolsInRange(data);
    GeneratorRange(0);
    RunRange(1, values);
    CheckedTail(Run(1, values));
    RunSplit(1, values, Zeros(6));
    RunSplit(1, values, Checksum(hrp, data));
  }

  lemma CheckedTail(c: nat)
    requires c < STATES
    ensures Run(c, Cut(Xor(Run(c, Zeros(6)), 1), 6, 5)) == 1
  {
    hide Run, Cut, Value;
    var shifted := Run(c, Zeros(6));
    GeneratorRange(0);
    assert InRange(Zeros(6));
    RunRange(c, Zeros(6));
    var mod := Xor(shifted, 1);
    XorRange(shifted, 1, 30);
    CutRoundTrip(mod, 6, 5);
    PackedRun(Cut(mod, 6, 5));
    RunIsSum(c, Cut(mod, 6, 5));
    XorCancel(shifted, 1);
  }

  // ---------- the errors that are detected ----------

  lemma WindowChangesRegister(c: nat, window: seq<nat>, other: seq<nat>)
    requires Symbols(window) && Symbols(other) && |window| == |other| <= 6 && window != other
    ensures Run(c, window) != Run(c, other)
  {
    hide Run, Cut, Value;
    SymbolsAreDigits(window);
    SymbolsAreDigits(other);
    RunIsSum(c, window);
    RunIsSum(c, other);
    PackedRun(window);
    PackedRun(other);
    var shifted := Run(c, Zeros(|window|));
    XorCancel(shifted, Value(window, 5));
    XorCancel(shifted, Value(other, 5));
    ValueRoundTrip(window, 5);
    ValueRoundTrip(other, 5);
  }

  /** Two words that differ only inside a window of at most six symbols leave different registers, however long
      the words are. So no burst of errors within six neighbouring symbols goes unnoticed. */
  lemma BurstDetected(before: seq<nat>, window: seq<nat>, other: seq<nat>, after: seq<nat>)
    requires InRange(before) && InRange(after) && Symbols(window) && Symbols(other)
    requires |window| == |other| <= 6 && window != other
    ensures Run(1, before + window + after) != Run(1, before + other + after)
  {
    hide Run;
    GeneratorRange(0);
    RunRange(1, before);
    var c := Run(1, before);
    WindowChangesRegister(c, window, other);
    SymbolsInRange(window);
    SymbolsInRange(other);
    RunRange(c, window);
    RunRange(c, other);
    RunSplit(1, before + window, after);
    RunSplit(1, before, window);
    RunSplit(1, before + other, after);
    RunSplit(1, before, other);
    if Run(Run(c, window), after) == Run(Run(c, other), after) {
      RunInjective(Run(c, window), Run(c, other), after);
    }
  }

  /** A single wrong symbol is a burst of length one: a word with a valid checksum has no valid neighbour. */
  lemma SingleErrorDetected(before: seq<nat>, v: nat, wrong: nat, after: seq<nat>)
    requires InRange(before) && InRange(after) && v < 32 && wrong < 32 && v != wrong
    ensures Run(1, before + [v] + after) == 1 ==> Run(1, before + [wrong] + after) != 1
  {
    assert [v][0] != [wrong][0];
    BurstDetected(before, [v], [wrong], after);
  }
}
