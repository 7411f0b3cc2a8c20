/** Sizing of a leverage loop: each leg supplies what the leg before it borrowed and borrows against it, so the
    legs shrink geometrically. Amounts are exact reals in units of the base asset. */
module LeveragePlan {
  import opened RealArithmetic
  import opened Wrappers

  const MAX_LEVERAGE: real := 1.8
  const SAFETY_BUFFER: real := 0.75
  const EPSILON: real := 0.000000001
  const MAX_LEGS: nat := 8

  datatype Direction = Long | Short | Unknown(name: string)

  datatype Leg = Leg(index: nat, trade: real, supply: real, borrow: real, exposure: real)

  datatype Plan = Plan(direction: Direction, initial: real, target: real, achieved: real, legLTV: real,
                       legs: seq<Leg>, totalExposure: real, totalBorrowed: real)

  datatype PlanError = BadInitial | BadDirection | BadLTV

  // ---------- what the loop computes ----------

  /** The requested leverage, kept within 1, the engine's cap, and what endless looping at `ltv` would reach. */
  function Clamp(target: real, ltv: real): real
    requires ltv < 1.0
  {
    var ceiling := 1.0 / (1.0 - ltv);
    var t := if target < 1.0 then 1.0 else if target > MAX_LEVERAGE then MAX_LEVERAGE else target;
    if t > ceiling then ceiling else t
  }

  /** The most that may be borrowed against `held`. */
  function Full(ltv: real, held: real): real {
    ltv * held
  }

  /** What decides a leg: the loan-to-value of each borrow, the debt that reaches the target, how close to it
      counts as there, and the least borrow worth a leg (0 or less: none). */
  datatype Sizing = Sizing(ltv: real, goal: real, slack: real, minBorrow: real)
  {
    predicate Valid() {
      0.0 < ltv < 1.0 && slack > 0.0
    }

    /** The next borrow against `held`, or None when the loop stops. */
    function Next(held: real, debt: real): Option<real> {
      var full := Full(ltv, held);
      if debt >= goal - slack then None
      else if full > goal - debt then
        if minBorrow > 0.0 && goal - debt < minBorrow then None else Some(goal - debt)
      else if full <= 0.0 || (minBorrow > 0.0 && full < minBorrow) then None
      else Some(full)
    }
  }

  /** The borrows of at most `n` further legs. */
  function Borrows(z: Sizing, held: real, debt: real, n: nat): (bs: seq<real>)
    ensures |bs| <= n
    decreases n, held, debt
  {
    if n == 0 then []
    else
      match z.Next(held, debt)
      case None => []
      case Some(b) => [b] + Borrows(z, b, debt + b, n - 1)
  }

  function Sum(bs: seq<real>): real
    decreases |bs|
  {
    if bs == [] then 0.0 else bs[0] + Sum(bs[1..])
  }

  /** The legs that borrow `bs` one after another, from `held` collateral and `debt` borrowed before. */
  function Legs(initial: real, held: real, debt: real, bs: seq<real>, index: nat): (legs: seq<Leg>)
    requires initial > 0.0
    ensures |legs| == |bs|
    decreases |bs|
  {
    if bs == [] then []
    else
      [Leg(index, bs[0], held, bs[0], 1.0 + (debt + bs[0]) / initial)]
      + Legs(initial, bs[0], debt + bs[0], bs[1..], index + 1)
  }

  function SizingOf(initial: real, marketLTV: real, target: real, minBorrow: real): Sizing
    requires marketLTV < 1.0
  {
    var ltv := marketLTV * SAFETY_BUFFER;
    Sizing(ltv, (Clamp(target, ltv) - 1.0) * initial, EPSILON * initial, minBorrow)
  }

  predicate ValidRequest(dir: Direction, initial: real, marketLTV: real) {
    initial > 0.0 && !dir.Unknown? && 0.0 < marketLTV < 1.0
  }

  function PlanFor(dir: Direction, initial: real, marketLTV: real, target: real, minBorrow: real): Plan
    requires ValidRequest(dir, initial, marketLTV)
  {
    var z := SizingOf(initial, marketLTV, target, minBorrow);
    var bs := Borrows(z, initial, 0.0, MAX_LEGS);
    Plan(dir, initial, Clamp(target, z.ltv), 1.0 + Sum(bs) / initial, z.ltv,
         Legs(initial, initial, 0.0, bs, 0), initial + Sum(bs), Sum(bs))
  }

  // ---------- the loop ----------

  method BuildPlan(dir: Direction, initial: real, marketLTV: real, requested: real, minBorrow: real)
    returns (r: Result<Plan, PlanError>)
    ensures initial <= 0.0 ==> r == Err(BadInitial)
    ensures initial > 0.0 && dir.Unknown? ==> r == Err(BadDirection)
    ensures initial > 0.0 && !dir.Unknown? && !(0.0 < marketLTV < 1.0) ==> r == Err(BadLTV)
    ensures ValidRequest(dir, initial, marketLTV) ==>
              r == Ok(PlanFor(dir, initial, marketLTV, requested, minBorrow))
  {
    hide Borrows, Legs, Sum, Clamp;
    if initial <= 0.0 { return Err(BadInitial); }
    if dir.Unknown? { return Err(BadDirection); }
    if marketLTV <= 0.0 || marketLTV >= 1.0 { return Err(BadLTV); }
    var target := requested;
    if target < 1.0 { target := 1.0; }
    if target > MAX_LEVERAGE { target := MAX_LEVERAGE; }
    var ltv := marketLTV * SAFETY_BUFFER;
    var ceiling := 1.0 / (1.0 - ltv);
    if target > ceiling { target := ceiling; }
    assert target == Clamp(requested, ltv) by { ClampIs(requested, ltv); }
    var legs, cumExposure, totalBorrowed := BuildLegs(initial, ltv, target, minBorrow);
    Exposed(initial, totalBorrowed, cumExposure);
    assert SizingOf(initial, marketLTV, requested, minBorrow)
        == Sizing(ltv, (target - 1.0) * initial, EPSILON * initial, minBorrow);
    return Ok(Plan(dir, initial, target, cumExposure, ltv, legs, cumExposure * initial, totalBorrowed));
  }

  method BuildLegs(initial: real, ltv: real, target: real, minBorrow: real)
    returns (legs: seq<Leg>, cumExposure: real, totalBorrowed: real)
    requires initial > 0.0
    ensures var z := Sizing(ltv, (target - 1.0) * initial, EPSILON * initial, minBorrow);
            var bs := Borrows(z, initial, 0.0, MAX_LEGS);
            legs == Legs(initial, initial, 0.0, bs, 0) && totalBorrowed == Sum(bs)
    ensures cumExposure == 1.0 + totalBorrowed / initial
  {
    hide Borrows, Legs, Sum, Sizing.Next, Full;
    cumExposure := 1.0;
    var held := initial;
    legs := [];
    totalBorrowed := 0.0;
    ghost var z := Sizing(ltv, (target - 1.0) * initial, EPSILON * initial, minBorrow);
    ghost var rest := Borrows(z, initial, 0.0, MAX_LEGS);
    ghost var allLegs, allDebt := Legs(initial, initial, 0.0, rest, 0), Sum(rest);
    var i := 0;
    while i < MAX_LEGS && cumExposure < target - EPSILON
      invariant 0 <= i <= MAX_LEGS
      invariant cumExposure == 1.0 + totalBorrowed / initial
      invariant rest == Borrows(z, held, totalBorrowed, MAX_LEGS - i)
      invariant totalBorrowed + Sum(rest) == allDebt
      invariant legs + Legs(initial, held, totalBorrowed, rest, i) == allLegs
    {
      ghost var n := MAX_LEGS - i;
      var remaining := target - cumExposure;
      var fullBorrow := Full(ltv, held);
      NextLeg(initial, target, z, held, totalBorrowed, remaining * initial, fullBorrow);
      Peel(z, held, totalBorrowed, n);
      PeelLegs(initial, held, totalBorrowed, rest, i);
      var borrow := fullBorrow;
      if borrow > remaining * initial {
        var tapered := remaining * initial;
        if minBorrow > 0.0 && tapered < minBorrow { break; }
        borrow := tapered;
      }
      if borrow <= 0.0 { break; }
      if minBorrow > 0.0 && borrow < minBorrow { break; }
      AddShares(totalBorrowed, borrow, initial);
      cumExposure := cumExposure + borrow / initial;
      Append(legs, Leg(i, borrow, held, borrow, cumExposure),
             Legs(initial, borrow, totalBorrowed + borrow, rest[1..], i + 1));
      legs := legs + [Leg(i, borrow, held, borrow, cumExposure)];
      totalBorrowed := totalBorrowed + borrow;
      held := borrow;
      rest := rest[1..];
      i := i + 1;
    }
    NextLeg(initial, target, z, held, totalBorrowed, (target - cumExposure) * initial, Full(ltv, held));
    Peel(z, held, totalBorrowed, MAX_LEGS - i);
    PeelLegs(initial, held, totalBorrowed, rest, i);
  }

  lemma Append(a: seq<Leg>, leg: Leg, b: seq<Leg>)
    ensures a + ([leg] + b) == a + [leg] + b
  {
  }

  lemma ClampIs(target: real, ltv: real)
    requires ltv < 1.0
    ensures var t0 := if target < 1.0 then 1.0 else target;
            var t1 := if t0 > MAX_LEVERAGE then MAX_LEVERAGE else t0;
            Clamp(target, ltv) == if t1 > 1.0 / (1.0 - ltv) then 1.0 / (1.0 - ltv) else t1
  {
  }

  /** One round of the loop, as the definition of its borrows has it. */
  lemma Peel(z: Sizing, held: real, debt: real, n: nat)
    ensures var bs := Borrows(z, held, debt, n);
      if n == 0 || z.Next(held, debt) == None then
        bs == [] && Sum(bs) == 0.0
      else
        var b := z.Next(held, debt).value;
        var rest := Borrows(z, b, debt + b, n - 1);
        bs == [b] + rest && bs[0] == b && bs[1..] == rest && Sum(bs) == b + Sum(rest)
  {
    hide Sizing.Next;
    var bs := Borrows(z, held, debt, n);
    if n > 0 && z.Next(held, debt) != None {
      var b := z.Next(held, debt).value;
      var rest := Borrows(z, b, debt + b, n - 1);
      assert bs == [b] + rest && bs[1..] == rest;
      hide Borrows;
    }
  }

  lemma PeelLegs(initial: real, held: real, debt: real, bs: seq<real>, index: nat)
    requires initial > 0.0
    ensures bs == [] ==> Legs(initial, held, debt, bs, index) == []
    ensures bs != [] ==>
              Legs(initial, held, debt, bs, index) == (
                [Leg(index, bs[0], held, bs[0], 1.0 + (debt + bs[0]) / initial)]
                + Legs(initial, bs[0], debt + bs[0], bs[1..], index + 1))
  {
  }

  /** The loop's test and its choice of the borrow, made on exposure, are those made on debt. */
  lemma NextLeg(initial: real, target: real, z: Sizing, held: real, debt: real, left: real, full: real)
    requires initial > 0.0 && z.goal == (target - 1.0) * initial && z.slack == EPSILON * initial
    requires left == (target - (1.0 + debt / initial)) * initial && full == Full(z.ltv, held)
    ensures 1.0 + debt / initial >= target - EPSILON ==> z.Next(held, debt) == None
    ensures 1.0 + debt / initial < target - EPSILON ==>
              && left > 0.0
              && z.Next(held, debt) == (
                   if full > left then (if z.minBorrow > 0.0 && left < z.minBorrow then None else Some(left))
                   else if full <= 0.0 || (z.minBorrow > 0.0 && full < z.minBorrow) then None
                   else Some(full))
  {
    Headroom(initial, target, debt);
    Scaled(EPSILON, initial);
    hide Full;
  }

  /** Exposure in multiples of the capital, and debt in units, measure the distance to the target alike. */
  lemma Headroom(initial: real, target: real, debt: real)
    requires initial > 0.0
    ensures (target - (1.0 + debt / initial)) * initial == (target - 1.0) * initial - debt
    ensures 1.0 + debt / initial < target - EPSILON <==> debt < (target - 1.0) * initial - EPSILON * initial
  {
    var share := debt / initial;
    assert share * initial == debt;
    ScaleLess(share, target - 1.0 - EPSILON, initial);
    assert (target - 1.0 - EPSILON) * initial == (target - 1.0) * initial - EPSILON * initial;
  }

  lemma Exposed(initial: real, debt: real, exposure: real)
    requires initial > 0.0 && exposure == 1.0 + debt / initial
    ensures exposure * initial == initial + debt
  {
    var share := debt / initial;
    assert share * initial == debt;
  }

  lemma AddShares(a: real, b: real, initial: real)
    requires initial > 0.0
    ensures (a + b) / initial == a / initial + b / initial
  {
  }

  // ---------- what every plan keeps ----------

  /** Borrows that a loop may make one after another: each positive, within the loan-to-value of what is held,
      and the borrowed amount is what is held next. */
  predicate Chain(ltv: real, held: real, bs: seq<real>)
    decreases |bs|
  {
    bs == [] || (0.0 < bs[0] <= Full(ltv, held) && Chain(ltv, bs[0], bs[1..]))
  }

  predicate AllAtLeast(minBorrow: real, bs: seq<real>) {
    forall i :: 0 <= i < |bs| ==> bs[i] >= minBorrow
  }

  function Last(held: real, bs: seq<real>): real {
    if bs == [] then held else bs[|bs| - 1]
  }

  lemma FullPositive(ltv: real, held: real)
    requires ltv > 0.0 && held > 0.0
    ensures Full(ltv, held) > 0.0
  {
  }

  lemma FullMonotone(ltv: real, a: real, b: real)
    requires ltv > 0.0 && a <= b
    ensures Full(ltv, a) <= Full(ltv, b)
  {
  }

  lemma FullSum(ltv: real, a: real, b: real)
    ensures Full(ltv, a + b) == Full(ltv, a) + Full(ltv, b)
  {
  }

  /** Every leg is within its loan-to-value and clears the minimum, and the debt never passes the goal. */
  lemma {:induction false} BorrowsKeep(z: Sizing, held: real, debt: real, n: nat)
    requires z.Valid() && held > 0.0
    ensures var bs := Borrows(z, held, debt, n);
            && Chain(z.ltv, held, bs) && AllAtLeast(z.minBorrow, bs) && Sum(bs) >= 0.0
            && (debt <= z.goal ==> debt + Sum(bs) <= z.goal)
    decreases n
  {
    hide Borrows, Sum, Full;
    FullPositive(z.ltv, held);
    Peel(z, held, debt, n);
    if n > 0 && z.Next(held, debt) != None {
      var b := z.Next(held, debt).value;
      BorrowsKeep(z, b, debt + b, n - 1);
    }
  }

  /** Every leg before the last borrows in full; the last is full or lands exactly on the goal. */
  lemma {:induction false} OnlyLastTapered(z: Sizing, held: real, debt: real, n: nat, k: nat)
    requires z.Valid() && held > 0.0 && k < |Borrows(z, held, debt, n)|
    ensures var bs := Borrows(z, held, debt, n);
            || bs[k] == Full(z.ltv, if k == 0 then held else bs[k - 1])
            || (k == |bs| - 1 && debt + Sum(bs) == z.goal)
    decreases n
  {
    hide Borrows, Sum, Full;
    FullPositive(z.ltv, held);
    Peel(z, held, debt, n);
    var b := z.Next(held, debt).value;
    if k > 0 {
      OnlyLastTapered(z, b, debt + b, n - 1, k - 1);
    } else if b != Full(z.ltv, held) {
      LoopEnds(z, b, debt + b, n - 1);
    }
  }

  lemma LoopEnds(z: Sizing, held: real, debt: real, n: nat)
    requires z.Valid() && debt >= z.goal
    ensures Borrows(z, held, debt, n) == [] && Sum(Borrows(z, held, debt, n)) == 0.0
  {
  }

  /** The loop stops short of both the goal and its last leg only when nothing that clears the minimum would
      still be allowed as a next leg. */
  lemma {:induction false} StopsOnlyWhenNothingFits(z: Sizing, held: real, debt: real, n: nat, next: real)
    requires z.Valid() && held > 0.0 && next > 0.0
    ensures var bs := Borrows(z, held, debt, n);
            |bs| < n && debt + Sum(bs) < z.goal - z.slack
            && next <= Full(z.ltv, Last(held, bs)) && debt + Sum(bs) + next <= z.goal
            ==> next < z.minBorrow
    decreases n
  {
    hide Borrows, Sum, Full;
    FullPositive(z.ltv, held);
    Peel(z, held, debt, n);
    if n > 0 && z.Next(held, debt) != None {
      var b := z.Next(held, debt).value;
      StopsOnlyWhenNothingFits(z, b, debt + b, n - 1, next);
    }
  }

  /** What is borrowed is within the loan-to-value of everything ever held but the last proceeds. */
  lemma {:induction false} DebtBound(ltv: real, held: real, bs: seq<real>)
    requires Chain(ltv, held, bs)
    ensures Sum(bs) <= Full(ltv, held + Sum(bs) - Last(held, bs))
    decreases |bs|
  {
    if bs != [] {
      DebtBound(ltv, bs[0], bs[1..]);
      FullSum(ltv, held, bs[0] + Sum(bs[1..]) - Last(bs[0], bs[1..]));
      hide Full;
      assert Last(bs[0], bs[1..]) == Last(held, bs);
    }
  }

  // ---------- optimality ----------

  /** No other loop does better. A competitor starts with no more collateral and no more debt, makes at most as
      many borrows, each within the loan-to-value and at or above the minimum, and stays under the same goal.
      It ends at most the slack above, or less than one minimum borrow above. */
  lemma {:induction false} NoLoopDoesBetter(z: Sizing, held: real, debt: real, n: nat,
                                            held': real, debt': real, cs: seq<real>)
    requires z.Valid() && held > 0.0 && held' <= held && debt' <= debt
    requires |cs| <= n && Chain(z.ltv, held', cs) && AllAtLeast(z.minBorrow, cs)
    requires debt' + Sum(cs) <= z.goal
    ensures var total := debt + Sum(Borrows(z, held, debt, n));
            debt' + Sum(cs) <= total + z.slack || debt' + Sum(cs) < total + z.minBorrow
    decreases n
  {
    hide Borrows, Full;
    BorrowsKeep(z, held, debt, n);
    if cs != [] {
      FullPositive(z.ltv, held);
      FullMonotone(z.ltv, held', held);
      Peel(z, held, debt, n);
      if z.Next(held, debt) != None {
        var b := z.Next(held, debt).value;
        if b == Full(z.ltv, held) {
          NoLoopDoesBetter(z, b, debt + b, n - 1, cs[0], debt' + cs[0], cs[1..]);
        } else {
          LoopEnds(z, b, debt + b, n - 1);
        }
      }
    }
  }

  /** What a loop may do: `n` borrows at most, each within the loan-to-value of what is held and clearing the
      minimum, the debt never past the goal. */
  predicate Allowed(z: Sizing, held: real, n: nat, cs: seq<real>) {
    |cs| <= n && Chain(z.ltv, held, cs) && AllAtLeast(z.minBorrow, cs) && Sum(cs) <= z.goal
  }

  function Pow(ltv: real, k: nat): real
    decreases k, ltv
  {
    if k == 0 then 1.0 else ltv * Pow(ltv, k - 1)
  }

  /** What `k` full legs borrow in all, per unit of capital. */
  function Reach(ltv: real, k: nat): real
    decreases k, ltv
  {
    if k == 0 then 0.0 else ltv * (1.0 + Reach(ltv, k - 1))
  }

  function FullBorrows(ltv: real, held: real, k: nat): (bs: seq<real>)
    ensures |bs| == k
    decreases k, ltv, held
  {
    if k == 0 then [] else [Full(ltv, held)] + FullBorrows(ltv, Full(ltv, held), k - 1)
  }

  /** Up to leg `k` full legs fall short of the goal by more than the slack and less than the minimum, leg `k` in full
      would pass it, and full legs of part of the capital that land on the goal with leg `k` all clear the minimum. */
  predicate MissesLeg(z: Sizing, held: real, k: nat) {
    && k > 0 && held * Reach(z.ltv, k - 1) + z.slack < z.goal <= held * Reach(z.ltv, k)
    && z.goal - held * Reach(z.ltv, k - 1) < z.minBorrow
    && z.minBorrow * Reach(z.ltv, k) <= z.goal * Pow(z.ltv, k)
  }

  predicate MissesALeg(z: Sizing, held: real, n: nat) {
    exists k :: 1 <= k <= n && MissesLeg(z, held, k)
  }

  /** The same, said of the plan's own borrows: one leg more would land on the goal. */
  predicate PlanMisses(z: Sizing, held: real, n: nat) {
    var bs := Borrows(z, held, 0.0, n);
    var k := |bs| + 1;
    && |bs| < n && Sum(bs) + z.slack < z.goal
    && z.goal <= held * Reach(z.ltv, k) && z.minBorrow * Reach(z.ltv, k) <= z.goal * Pow(z.ltv, k)
  }

  lemma {:induction false} ReachPositive(ltv: real, k: nat)
    requires ltv > 0.0
    ensures Pow(ltv, k) > 0.0 && Reach(ltv, k) >= 0.0 && (k > 0 ==> Reach(ltv, k) > 0.0)
    decreases k
  {
    if k > 0 {
      ReachPositive(ltv, k - 1);
      Scaled(ltv, Pow(ltv, k - 1));
      Scaled(ltv, 1.0 + Reach(ltv, k - 1));
    }
  }

  /** Full legs: what they sum to, and how small the last one is. */
  lemma {:induction false} FullBorrowsSum(ltv: real, held: real, k: nat)
    requires ltv > 0.0 && held > 0.0
    ensures var bs := FullBorrows(ltv, held, k);
            Chain(ltv, held, bs) && Sum(bs) == held * Reach(ltv, k) && Last(held, bs) == held * Pow(ltv, k)
    decreases k
  {
    hide FullBorrows, Full, Pow, Reach, Last, Sum, Chain;
    if k == 0 {
      NoFullBorrows(ltv, held);
    } else {
      FullPositive(ltv, held);
      FullBorrowsSum(ltv, Full(ltv, held), k - 1);
      PeelFull(ltv, held, k);
      Step(ltv, held, k - 1);
    }
  }

  lemma NoFullBorrows(ltv: real, held: real)
    ensures var bs := FullBorrows(ltv, held, 0);
            Chain(ltv, held, bs) && Sum(bs) == held * Reach(ltv, 0) && Last(held, bs) == held * Pow(ltv, 0)
  {
  }

  lemma PeelFull(ltv: real, held: real, k: nat)
    requires k > 0
    ensures var full := Full(ltv, held);
            var bs := FullBorrows(ltv, held, k);
            var rest := FullBorrows(ltv, full, k - 1);
            && Last(held, bs) == Last(full, rest) && Sum(bs) == full + Sum(rest)
            && (full > 0.0 && Chain(ltv, full, rest) ==> Chain(ltv, held, bs))
  {
    hide Full;
    assert FullBorrows(ltv, held, k)[1..] == FullBorrows(ltv, Full(ltv, held), k - 1);
  }

  /** A full leg earlier, or a power higher, comes to the same. */
  lemma Step(ltv: real, held: real, k: nat)
    ensures Full(ltv, held) * Pow(ltv, k) == held * Pow(ltv, k + 1)
    ensures Full(ltv, held) + Full(ltv, held) * Reach(ltv, k) == held * Reach(ltv, k + 1)
    decreases k, ltv
  {
    Regroup(ltv, held, Pow(ltv, k));
    Same(held, Pow(ltv, k + 1), ltv * Pow(ltv, k));
    Regroup(ltv, held, 1.0 + Reach(ltv, k));
    Same(held, Reach(ltv, k + 1), ltv * (1.0 + Reach(ltv, k)));
  }

  lemma Regroup(ltv: real, held: real, x: real)
    ensures Full(ltv, held) * x == held * (ltv * x)
    ensures Full(ltv, held) * x == Full(ltv, held) * (x - 1.0) + Full(ltv, held)
  {
  }

  /** Full legs shrink, so all clear a minimum that the last one clears. */
  lemma {:induction false} FullBorrowsClear(ltv: real, held: real, k: nat, minBorrow: real)
    requires 0.0 < ltv < 1.0 && held > 0.0 && minBorrow <= held * Pow(ltv, k)
    ensures AllAtLeast(minBorrow, FullBorrows(ltv, held, k)) && minBorrow <= held
    decreases k
  {
    if k > 0 {
      var full := Full(ltv, held);
      FullPositive(ltv, held);
      Step(ltv, held, k - 1);
      FullBorrowsClear(ltv, full, k - 1, minBorrow);
      Shrinks(ltv, held);
      var rest := FullBorrows(ltv, full, k - 1);
      hide Full, Pow;
      assert FullBorrows(ltv, held, k) == [full] + rest;
    }
  }

  lemma Shrinks(ltv: real, held: real)
    requires 0.0 < ltv < 1.0 && held > 0.0
    ensures Full(ltv, held) < held
  {
  }

  /** No chain borrows more than as many full legs. */
  lemma {:induction false} FullIsMost(ltv: real, held': real, held: real, cs: seq<real>, k: nat)
    requires ltv > 0.0 && 0.0 < held && held' <= held && Chain(ltv, held', cs) && |cs| <= k
    ensures Sum(cs) <= Sum(FullBorrows(ltv, held, k))
    decreases k
  {
    if k > 0 {
      var full := Full(ltv, held);
      FullPositive(ltv, held);
      FullMonotone(ltv, held', held);
      var bs := FullBorrows(ltv, held, k);
      assert bs[1..] == FullBorrows(ltv, full, k - 1);
      if cs == [] {
        FullIsMost(ltv, full, full, [], k - 1);
      } else {
        hide Full;
        FullIsMost(ltv, cs[0], full, cs[1..], k - 1);
      }
    }
  }

  /** A chain whose `k`th leg clears the minimum borrowed at least so much by then. */
  lemma {:induction false} ChainIsLeast(ltv: real, held: real, cs: seq<real>, minBorrow: real, k: nat)
    requires 0.0 < ltv < 1.0 && Chain(ltv, held, cs) && AllAtLeast(minBorrow, cs) && k <= |cs|
    ensures k > 0 ==> minBorrow <= held * Pow(ltv, k)
    ensures minBorrow * Reach(ltv, k) <= Sum(cs) * Pow(ltv, k)
    decreases k
  {
    hide Pow, Reach, Chain, Sum, Full, AllAtLeast;
    ChainPositive(ltv, held, cs);
    if k == 0 {
      NoLegs(ltv, minBorrow, Sum(cs));
    } else {
      var c, rest := cs[0], cs[1..];
      PeelChain(ltv, held, cs, minBorrow);
      ChainIsLeast(ltv, c, rest, minBorrow, k - 1);
      if k == 1 {
        PowZero(ltv, c);
      }
      LegBefore(ltv, held, c, minBorrow, Sum(rest), Sum(cs), k);
    }
  }

  lemma NoLegs(ltv: real, minBorrow: real, sum: real)
    requires sum >= 0.0
    ensures minBorrow * Reach(ltv, 0) <= sum * Pow(ltv, 0)
  {
  }

  lemma PeelChain(ltv: real, held: real, cs: seq<real>, minBorrow: real)
    requires cs != [] && Chain(ltv, held, cs) && AllAtLeast(minBorrow, cs)
    ensures var c, rest := cs[0], cs[1..];
            && c <= Full(ltv, held) && c >= minBorrow && Chain(ltv, c, rest) && AllAtLeast(minBorrow, rest)
            && Sum(cs) == c + Sum(rest)
  {
    hide Full;
  }

  lemma LegBefore(ltv: real, held: real, c: real, minBorrow: real, rest: real, sum: real, k: nat)
    requires ltv > 0.0 && k > 0 && c <= Full(ltv, held) && sum == c + rest
    requires minBorrow <= c * Pow(ltv, k - 1) && minBorrow * Reach(ltv, k - 1) <= rest * Pow(ltv, k - 1)
    ensures minBorrow <= held * Pow(ltv, k) && minBorrow * Reach(ltv, k) <= sum * Pow(ltv, k)
    decreases k, ltv
  {
    hide Pow, Reach, Full;
    ReachPositive(ltv, k - 1);
    Times(c, Full(ltv, held), Pow(ltv, k - 1));
    Step(ltv, held, k - 1);
    ChainIsLeastStep(ltv, c, minBorrow, rest, k - 1);
  }

  lemma PowZero(ltv: real, c: real)
    ensures c * Pow(ltv, 0) == c
  {
  }

  lemma ChainIsLeastStep(ltv: real, c: real, minBorrow: real, rest: real, k: nat)
    requires ltv > 0.0 && minBorrow <= c * Pow(ltv, k)
    requires minBorrow * Reach(ltv, k) <= rest * Pow(ltv, k)
    ensures minBorrow * Reach(ltv, k + 1) <= (c + rest) * Pow(ltv, k + 1)
    decreases k, ltv
  {
    Same(minBorrow, Reach(ltv, k + 1), ltv * (1.0 + Reach(ltv, k)));
    Same(c + rest, Pow(ltv, k + 1), ltv * Pow(ltv, k));
    Weighed(ltv, c, minBorrow, rest, Pow(ltv, k), Reach(ltv, k));
  }

  lemma Weighed(ltv: real, c: real, minBorrow: real, rest: real, p: real, g: real)
    requires ltv > 0.0 && minBorrow <= c * p && minBorrow * g <= rest * p
    ensures minBorrow * (ltv * (1.0 + g)) <= (c + rest) * (ltv * p)
  {
    Times(minBorrow + minBorrow * g, c * p + rest * p, ltv);
  }

  lemma {:induction false} ChainPositive(ltv: real, held: real, cs: seq<real>)
    requires Chain(ltv, held, cs)
    ensures Sum(cs) >= 0.0
    decreases |cs|
  {
    if cs != [] {
      ChainPositive(ltv, cs[0], cs[1..]);
    }
  }

  /** A plan that stops short of the goal made only full legs, and stopped because the next full leg is under
      the minimum or passes the goal. */
  lemma {:induction false} ShortPlansAreFull(z: Sizing, held: real, debt: real, n: nat)
    requires z.Valid() && held > 0.0
    ensures var bs := Borrows(z, held, debt, n);
            debt + Sum(bs) + z.slack < z.goal ==>
              && bs == FullBorrows(z.ltv, held, |bs|)
              && (|bs| < n ==> var full := Full(z.ltv, Last(held, bs));
                               full < z.minBorrow || full > z.goal - debt - Sum(bs))
    decreases n
  {
    hide Borrows, Sum, Full;
    FullPositive(z.ltv, held);
    Peel(z, held, debt, n);
    if n > 0 && z.Next(held, debt) != None {
      var b := z.Next(held, debt).value;
      ShortPlansAreFull(z, b, debt + b, n - 1);
      if b != Full(z.ltv, held) {
        LoopEnds(z, b, debt + b, n - 1);
      }
    }
  }

  /** Exactly when a loop could have borrowed more than the plan does (beyond the slack). */
  lemma WhenAPlanFallsShort(z: Sizing, held: real, n: nat)
    requires z.Valid() && held > 0.0
    ensures (exists cs :: Allowed(z, held, n, cs) && Sum(cs) > Sum(Borrows(z, held, 0.0, n)) + z.slack)
            <==> MissesALeg(z, held, n)
  {
    PlanMissesExactly(z, held, n);
    hide MissesALeg, PlanMisses;
    var better := BetterLoop(z, held, n);
    forall cs
      ensures Allowed(z, held, n, cs) && Sum(cs) > Sum(Borrows(z, held, 0.0, n)) + z.slack ==> PlanMisses(z, held, n)
    {
      OnlyThenBetter(z, held, n, cs);
    }
  }

  /** The better loop: full legs on less capital. */
  lemma BetterLoop(z: Sizing, held: real, n: nat) returns (cs: seq<real>)
    requires z.Valid() && held > 0.0
    ensures PlanMisses(z, held, n) ==> Allowed(z, held, n, cs) && Sum(cs) == z.goal
  {
    hide Borrows, Reach, Pow, Sum, Full;
    var k := |Borrows(z, held, 0.0, n)| + 1;
    BorrowsKeep(z, held, 0.0, n);
    ReachPositive(z.ltv, k);
    cs := FullBorrows(z.ltv, Part(z.goal, Reach(z.ltv, k)), k);
    if PlanMisses(z, held, n) {
      ShareIs(z.goal, Reach(z.ltv, k), held, z.minBorrow, Pow(z.ltv, k));
      OnPart(z, held, Part(z.goal, Reach(z.ltv, k)), k);
    }
  }

  lemma OnPart(z: Sizing, held: real, part: real, k: nat)
    requires z.Valid() && 0.0 < part <= held && k > 0
    ensures part * Reach(z.ltv, k) == z.goal && z.minBorrow <= part * Pow(z.ltv, k) ==>
              Allowed(z, held, k, FullBorrows(z.ltv, part, k)) && Sum(FullBorrows(z.ltv, part, k)) == z.goal
  {
    hide Reach, Pow, Sum, Full;
    if z.minBorrow <= part * Pow(z.ltv, k) {
      FullBorrowsSum(z.ltv, part, k);
      FullBorrowsClear(z.ltv, part, k, z.minBorrow);
      FullMonotone(z.ltv, part, held);
    }
  }

  function Part(goal: real, g: real): real
    requires g != 0.0
  {
    goal / g
  }

  lemma ShareIs(goal: real, g: real, held: real, minBorrow: real, p: real)
    requires goal > 0.0 && g > 0.0 && goal <= held * g && minBorrow * g <= goal * p
    ensures var part := Part(goal, g); 0.0 < part <= held && part * g == goal && minBorrow <= part * p
  {
    var part := Part(goal, g);
    assert part * g == goal;
    ScaleLess(held, part, g);
    assert (part * p) * g == goal * p;
    ScaleLess(part * p, minBorrow, g);
    ScaleLess(0.0, part, g);
  }

  lemma OnlyThenBetter(z: Sizing, held: real, n: nat, cs: seq<real>)
    requires z.Valid() && held > 0.0
    ensures Allowed(z, held, n, cs) && Sum(cs) > Sum(Borrows(z, held, 0.0, n)) + z.slack ==> PlanMisses(z, held, n)
  {
    hide Borrows, Sum, Full, Chain, Pow, Reach, FullBorrows;
    var bs := Borrows(z, held, 0.0, n);
    var m := |bs|;
    if Allowed(z, held, n, cs) && Sum(cs) > Sum(bs) + z.slack {
      ShortPlansAreFull(z, held, 0.0, n);
      if |cs| <= m {
        FullIsMost(z.ltv, held, held, cs, m);
      }
      ChainIsLeast(z.ltv, held, cs, z.minBorrow, m + 1);
      FullBorrowsSum(z.ltv, held, m);
      ReachPositive(z.ltv, m + 1);
      NextFull(z.ltv, held, Last(held, bs), m);
      Times(Sum(cs), z.goal, Pow(z.ltv, m + 1));
    }
  }

  /** A loop that could make `k - 1` full legs, `reached` in all, and has less than the minimum left after them makes
      exactly those. */
  lemma {:induction false} MakesFullLegs(z: Sizing, held: real, debt: real, n: nat, k: nat, reached: real, last: real)
    requires z.Valid() && held > 0.0 && 0 < k <= n
    ensures (&& reached == held * Reach(z.ltv, k - 1) && last == held * Pow(z.ltv, k)
             && debt + reached + z.slack < z.goal && z.goal - debt - reached < z.minBorrow <= last)
            ==> Borrows(z, held, debt, n) == FullBorrows(z.ltv, held, k - 1)
    decreases k
  {
    hide Borrows, Full, Reach, Pow, FullBorrows, Sizing.Next;
    if && reached == held * Reach(z.ltv, k - 1) && last == held * Pow(z.ltv, k)
       && debt + reached + z.slack < z.goal && z.goal - debt - reached < z.minBorrow <= last
    {
      Peel(z, held, debt, n);
      FullPositive(z.ltv, held);
      if k == 1 {
        NoFullLegs(z.ltv, held);
        NextDecided(z, held, debt);
      } else {
        var full := Full(z.ltv, held);
        OneFullLeg(z.ltv, held, k, reached, last);
        NextDecided(z, held, debt);
        FullSplit(z.ltv, held, k - 1);
        MakesFullLegs(z, full, debt + full, n - 1, k - 1, reached - full, last);
      }
    }
  }

  lemma NextDecided(z: Sizing, held: real, debt: real)
    requires z.Valid() && Full(z.ltv, held) > 0.0 && debt < z.goal - z.slack
    ensures z.goal - debt < z.minBorrow ==> z.Next(held, debt) == None
    ensures z.minBorrow <= Full(z.ltv, held) <= z.goal - debt ==> z.Next(held, debt) == Some(Full(z.ltv, held))
  {
    hide Full;
  }

  lemma FullSplit(ltv: real, held: real, k: nat)
    requires k > 0
    ensures FullBorrows(ltv, held, k) == [Full(ltv, held)] + FullBorrows(ltv, Full(ltv, held), k - 1)
  {
    hide Full;
  }

  lemma NoFullLegs(ltv: real, held: real)
    ensures FullBorrows(ltv, held, 0) == [] && held * Reach(ltv, 0) == 0.0
  {
  }

  /** Of several full legs the first borrows no more than all and no less than the last. */
  lemma OneFullLeg(ltv: real, held: real, k: nat, reached: real, last: real)
    requires 0.0 < ltv < 1.0 && held > 0.0 && k > 1
    ensures var full := Full(ltv, held);
            reached == held * Reach(ltv, k - 1) && last == held * Pow(ltv, k) ==>
              && last <= full <= reached
              && reached - full == full * Reach(ltv, k - 2) && last == full * Pow(ltv, k - 1)
  {
    hide Full, Reach, Pow;
    var full := Full(ltv, held);
    FullPositive(ltv, held);
    ReachPositive(ltv, k - 2);
    Times(0.0, full, Reach(ltv, k - 2));
    Step(ltv, held, k - 2);
    Step(ltv, held, k - 1);
    FullBorrowsClear(ltv, full, k - 1, full * Pow(ltv, k - 1));
  }

  /** Whether the plan misses a leg can be told from the request alone. */
  lemma PlanMissesExactly(z: Sizing, held: real, n: nat)
    requires z.Valid() && held > 0.0
    ensures PlanMisses(z, held, n) <==> MissesALeg(z, held, n)
  {
    hide Borrows, Sum, Full, Reach, Pow, FullBorrows;
    if PlanMisses(z, held, n) {
      var m := |Borrows(z, held, 0.0, n)|;
      PlanMissesLeg(z, held, n, m);
      assert MissesLeg(z, held, m + 1);
    }
    forall k
      ensures 1 <= k <= n && MissesLeg(z, held, k) ==> PlanMisses(z, held, n)
    {
      if 1 <= k <= n && MissesLeg(z, held, k) {
        LegMissesPlan(z, held, n, k);
      }
    }
  }

  lemma PlanMissesLeg(z: Sizing, held: real, n: nat, m: nat)
    requires z.Valid() && held > 0.0 && m == |Borrows(z, held, 0.0, n)|
    ensures PlanMisses(z, held, n) ==> MissesLeg(z, held, m + 1)
  {
    hide Borrows, Sum, Full, Reach, Pow, FullBorrows;
    if PlanMisses(z, held, n) {
      var bs := Borrows(z, held, 0.0, n);
      ShortPlansAreFull(z, held, 0.0, n);
      FullBorrowsSum(z.ltv, held, m);
      NextFull(z.ltv, held, Last(held, bs), m);
      StopsOnlyWhenNothingFits(z, held, 0.0, n, z.goal - Sum(bs));
    }
  }

  lemma LegMissesPlan(z: Sizing, held: real, n: nat, k: nat)
    requires z.Valid() && held > 0.0 && 1 <= k <= n
    ensures MissesLeg(z, held, k) ==> PlanMisses(z, held, n)
  {
    hide Borrows, Sum, Full, Reach, Pow, FullBorrows;
    if MissesLeg(z, held, k) {
      var g, p, hg, hp := Reach(z.ltv, k), Pow(z.ltv, k), held * Reach(z.ltv, k), held * Pow(z.ltv, k);
      ReachPositive(z.ltv, k);
      ClearsFromPart(z.minBorrow, z.goal, held, g, p, hg, hp);
      MakesFullLegs(z, held, 0.0, n, k, held * Reach(z.ltv, k - 1), hp);
      FullBorrowsSum(z.ltv, held, k - 1);
    }
  }

  lemma ClearsFromPart(minBorrow: real, goal: real, held: real, g: real, p: real, hg: real, hp: real)
    requires g > 0.0 && p > 0.0 && hg == held * g && hp == held * p
    requires goal <= hg && minBorrow * g <= goal * p
    ensures minBorrow <= hp
  {
    Times(goal, hg, p);
    Crossed(held, g, p, hg, hp);
    if minBorrow > hp {
      ScaleLess(hp, minBorrow, g);
    }
  }

  lemma Crossed(held: real, g: real, p: real, hg: real, hp: real)
    requires hg == held * g && hp == held * p
    ensures hg * p == hp * g
  {
    Same(p, hg, held * g);
    Same(g, hp, held * p);
  }

  /** The leg after `m` full legs: what it borrows, and what all have borrowed then. */
  lemma NextFull(ltv: real, held: real, last: real, m: nat)
    requires last == held * Pow(ltv, m)
    ensures Full(ltv, last) == held * Pow(ltv, m + 1)
    ensures held * Reach(ltv, m) + Full(ltv, last) == held * Reach(ltv, m + 1)
    decreases m, ltv
  {
    ReachSplit(ltv, m);
    Same(held, Reach(ltv, m + 1), Reach(ltv, m) + Pow(ltv, m + 1));
    Same(held, Pow(ltv, m + 1), ltv * Pow(ltv, m));
    Same(ltv, last, held * Pow(ltv, m));
  }

  lemma {:induction false} ReachSplit(ltv: real, m: nat)
    ensures Reach(ltv, m + 1) == Reach(ltv, m) + Pow(ltv, m + 1)
    decreases m
  {
    if m > 0 {
      ReachSplit(ltv, m - 1);
    }
  }

  // ---------- a plan's debt, told from the request ----------

  /** `m` full legs are made: each is needed, within the goal, and clears the minimum. */
  predicate MakesFull(z: Sizing, held: real, m: nat) {
    m == 0 || (&& held * Reach(z.ltv, m - 1) + z.slack < z.goal && held * Reach(z.ltv, m) <= z.goal
               && z.minBorrow <= held * Pow(z.ltv, m))
  }

  /** After them a smaller leg lands on the goal. */
  predicate Tapers(z: Sizing, held: real, m: nat) {
    && held * Reach(z.ltv, m) + z.slack < z.goal < held * Reach(z.ltv, m + 1)
    && z.minBorrow <= z.goal - held * Reach(z.ltv, m)
  }

  /** After them comes none: the goal is reached, or what would come next is under the minimum. */
  predicate Stops(z: Sizing, held: real, m: nat) {
    || z.goal <= held * Reach(z.ltv, m) + z.slack
    || if z.goal < held * Reach(z.ltv, m + 1) then z.goal - held * Reach(z.ltv, m) < z.minBorrow
       else held * Pow(z.ltv, m + 1) < z.minBorrow
  }

  predicate OwesAfter(z: Sizing, held: real, n: nat, m: nat, debt: real) {
    && m <= n && MakesFull(z, held, m)
    && if m < n && Tapers(z, held, m) then debt == z.goal
       else (m == n || Stops(z, held, m)) && debt == held * Reach(z.ltv, m)
  }

  /** Fewer full legs are made if more are. */
  lemma {:induction false} MakesFewer(z: Sizing, held: real, k: nat, m: nat)
    requires z.Valid() && held > 0.0 && k <= m && MakesFull(z, held, m)
    ensures MakesFull(z, held, k)
    decreases m
  {
    hide Reach, Pow;
    if k < m {
      OneFewer(z, held, m);
      MakesFewer(z, held, k, m - 1);
    }
  }

  lemma OneFewer(z: Sizing, held: real, m: nat)
    requires z.Valid() && held > 0.0 && m > 0 && MakesFull(z, held, m)
    ensures MakesFull(z, held, m - 1)
  {
    hide Reach, Pow;
    if m > 1 {
      var a, b, c := held * Pow(z.ltv, m - 2), held * Pow(z.ltv, m - 1), held * Pow(z.ltv, m);
      Reached(z.ltv, held, m - 2, a, b);
      Reached(z.ltv, held, m - 1, b, c);
    }
  }

  /** Each full leg adds less than the one before. */
  lemma Reached(ltv: real, held: real, m: nat, last: real, next: real)
    requires 0.0 < ltv < 1.0 && held > 0.0 && last == held * Pow(ltv, m) && next == held * Pow(ltv, m + 1)
    ensures held * Reach(ltv, m + 1) == held * Reach(ltv, m) + next
    ensures 0.0 < next < last && Full(ltv, last) == next
    decreases m, ltv
  {
    hide Reach, Pow;
    NextFull(ltv, held, last, m);
    ReachPositive(ltv, m);
    Scaled(held, Pow(ltv, m));
    FullIs(ltv, last);
    ScaleLess(ltv, 1.0, last);
    Scaled(ltv, last);
  }

  /** The next leg after `m` full ones. */
  lemma NextAfter(z: Sizing, held: real, m: nat, last: real, next: real, reached: real)
    requires z.Valid() && held > 0.0 && reached == held * Reach(z.ltv, m)
    requires last == held * Pow(z.ltv, m) && next == held * Pow(z.ltv, m + 1)
    ensures z.Next(last, reached)
            == if Stops(z, held, m) then None
               else if Tapers(z, held, m) then Some(z.goal - reached)
               else Some(next)
    ensures MakesFull(z, held, m + 1) ==> !Stops(z, held, m) && !Tapers(z, held, m)
    ensures Stops(z, held, m) ==> !Tapers(z, held, m)
    ensures !Stops(z, held, m) && !Tapers(z, held, m) ==> MakesFull(z, held, m + 1)
  {
    hide Reach, Pow, Full, Sizing.Next;
    Reached(z.ltv, held, m, last, next);
    NextIs(z, last, next, reached);
  }

  lemma NextIs(z: Sizing, last: real, next: real, reached: real)
    requires z.Valid() && Full(z.ltv, last) == next > 0.0
    ensures z.Next(last, reached)
            == if z.goal <= reached + z.slack then None
               else if z.goal < reached + next then
                 if z.goal - reached < z.minBorrow then None else Some(z.goal - reached)
               else if next < z.minBorrow then None
               else Some(next)
  {
    hide Full;
  }

  lemma {:induction false} OwesFrom(z: Sizing, held: real, n: nat, k: nat, last: real, reached: real, debt: real)
    requires z.Valid() && held > 0.0 && k <= n && MakesFull(z, held, k)
    requires last == held * Pow(z.ltv, k) && reached == held * Reach(z.ltv, k)
    ensures reached + Sum(Borrows(z, last, reached, n - k)) == debt
            <==> exists m :: k <= m && OwesAfter(z, held, n, m, debt)
    decreases n - k
  {
    hide Borrows, Sum, Full, Reach, Pow, MakesFull, Tapers, Stops, Sizing.Next;
    var next := held * Pow(z.ltv, k + 1);
    Peel(z, last, reached, n - k);
    NextAfter(z, held, k, last, next, reached);
    forall m | k < m && OwesAfter(z, held, n, m, debt)
      ensures !Stops(z, held, k) && !Tapers(z, held, k)
    {
      MakesFewer(z, held, k + 1, m);
    }
    if k < n && !Stops(z, held, k) {
      if Tapers(z, held, k) {
        LoopEnds(z, z.goal - reached, reached + (z.goal - reached), n - k - 1);
        assert debt == z.goal ==> OwesAfter(z, held, n, k, debt);
      } else {
        Reached(z.ltv, held, k, last, next);
        OwesFrom(z, held, n, k + 1, next, reached + next, debt);
      }
    } else {
      assert debt == reached ==> OwesAfter(z, held, n, k, debt);
    }
  }

  /** What a plan owes, in terms of its request: full legs while they fit and clear the minimum, then what is left, if
      that does. */
  lemma PlanOwes(z: Sizing, held: real, n: nat, debt: real)
    requires z.Valid() && held > 0.0
    ensures Sum(Borrows(z, held, 0.0, n)) == debt <==> exists m :: OwesAfter(z, held, n, m, debt)
  {
    hide Borrows, Sum, OwesAfter;
    OwesFrom(z, held, n, 0, held, 0.0, debt);
  }

  /** As many legs are made as full ones fit. */
  lemma {:induction false} MakesAtLeast(z: Sizing, held: real, n: nat, k: nat, last: real, reached: real, m: nat)
    requires z.Valid() && held > 0.0 && k <= m <= n && MakesFull(z, held, m)
    requires last == held * Pow(z.ltv, k) && reached == held * Reach(z.ltv, k)
    ensures |Borrows(z, last, reached, n - k)| >= m - k
    decreases m - k
  {
    hide Borrows, Full, Reach, Pow, MakesFull, Sizing.Next;
    if k < m {
      var next := held * Pow(z.ltv, k + 1);
      Peel(z, last, reached, n - k);
      MakesFewer(z, held, k + 1, m);
      NextAfter(z, held, k, last, next, reached);
      Reached(z.ltv, held, k, last, next);
      MakesAtLeast(z, held, n, k + 1, next, reached + next, m);
    }
  }

  lemma {:induction false} ReachIs(ltv: real, k: nat)
    ensures (1.0 - ltv) * Reach(ltv, k) == ltv - ltv * Pow(ltv, k)
    decreases k
  {
    if k > 0 {
      ReachIs(ltv, k - 1);
      hide Pow;
      ReachSplit(ltv, k - 1);
      PowNext(ltv, k - 1, Pow(ltv, k - 1));
    }
  }

  lemma PowNext(ltv: real, k: nat, p: real)
    requires p == Pow(ltv, k)
    ensures Pow(ltv, k + 1) == ltv * p
    decreases k, ltv
  {
  }

  lemma ThreeEighths(ltv: real, k: nat)
    requires ltv == 0.375
    ensures Pow(ltv, k + 1) == 0.375 * Pow(ltv, k) && Reach(ltv, k) == 0.6 - 0.6 * Pow(ltv, k)
  {
    hide Reach;
    ReachIs(ltv, k);
    PowNext(ltv, k, Pow(ltv, k));
    hide Pow;
  }

  lemma NinthPower(ltv: real)
    requires ltv == 0.375
    ensures Pow(ltv, 8) > 0.0001 && Pow(ltv, 9) > 0.0001
  {
    hide Pow, Reach;
    PowZero(ltv, 1.0);
    ThreeEighths(ltv, 0);
    ThreeEighths(ltv, 1);
    ThreeEighths(ltv, 2);
    ThreeEighths(ltv, 3);
    ThreeEighths(ltv, 4);
    ThreeEighths(ltv, 5);
    ThreeEighths(ltv, 6);
    ThreeEighths(ltv, 7);
    ThreeEighths(ltv, 8);
  }

  lemma NineFit(z: Sizing, held: real)
    requires z.ltv == 0.375 && held >= 1000000.0 && z.minBorrow == 20.0
    requires z.goal == 0.6 * held && z.slack == EPSILON * held
    ensures MakesFull(z, held, 9)
  {
    hide Pow, Reach;
    var eight, nine, last := Reach(z.ltv, 8), Reach(z.ltv, 9), Pow(z.ltv, 9);
    NinthPower(z.ltv);
    ThreeEighths(z.ltv, 8);
    ThreeEighths(z.ltv, 9);
    Times(eight + EPSILON, 0.59995, held);
    Times(nine, 0.6, held);
    Times(0.0001, last, held);
  }

  /** The leg count is a limit of its own: at a market loan-to-value of one half, a capital of a million or more is
      planned eight legs where a ninth would clear the minimum and stay under the target. */
  lemma EightLegs(initial: real, n: nat)
    requires initial >= 1000000.0 && n == 9
    ensures |PlanFor(Long, initial, 0.5, 1.6, 20.0).legs| == 8
    ensures |Borrows(SizingOf(initial, 0.5, 1.6, 20.0), initial, 0.0, n)| == 9
  {
    hide Borrows, Reach, Pow, Sum, MakesFull;
    var z := SizingOf(initial, 0.5, 1.6, 20.0);
    NineFit(z, initial);
    MakesFewer(z, initial, 8, 9);
    AtStart(z.ltv, initial);
    MakesAtLeast(z, initial, n, 0, initial, 0.0, 9);
    MakesAtLeast(z, initial, MAX_LEGS, 0, initial, 0.0, 8);
    PlanFields(Long, initial, 0.5, 1.6, 20.0);
  }

  lemma AtStart(ltv: real, held: real)
    ensures held * Pow(ltv, 0) == held && held * Reach(ltv, 0) == 0.0
  {
  }

  // ---------- what a plan promises ----------

  /** The last amount held: the last leg's borrow, or the capital where there is no leg. */
  function LastHeld(p: Plan): real {
    if p.legs == [] then p.initial else p.legs[|p.legs| - 1].borrow
  }

  lemma {:induction false} LegIs(initial: real, held: real, debt: real, bs: seq<real>, index: nat, k: nat)
    requires initial > 0.0 && k < |bs|
    ensures Legs(initial, held, debt, bs, index)[k]
            == Leg(index + k, bs[k], if k == 0 then held else bs[k - 1], bs[k],
                   1.0 + (debt + Sum(bs[..k + 1])) / initial)
    decreases k
  {
    var rest := bs[1..];
    if k > 0 {
      LegIs(initial, bs[0], debt + bs[0], rest, index + 1, k - 1);
      assert bs[..k + 1][1..] == rest[..k];
    }
  }

  lemma LastLeg(dir: Direction, initial: real, marketLTV: real, target: real, minBorrow: real)
    requires ValidRequest(dir, initial, marketLTV)
    ensures var p := PlanFor(dir, initial, marketLTV, target, minBorrow);
            var z := SizingOf(initial, marketLTV, target, minBorrow);
            LastHeld(p) == Last(initial, Borrows(z, initial, 0.0, MAX_LEGS))
  {
    hide Borrows, SizingOf, Sum;
    var z := SizingOf(initial, marketLTV, target, minBorrow);
    var bs := Borrows(z, initial, 0.0, MAX_LEGS);
    if bs != [] {
      LegIs(initial, initial, 0.0, bs, 0, |bs| - 1);
    }
    hide Legs;
  }

  lemma RequestIsSized(dir: Direction, initial: real, marketLTV: real, target: real, minBorrow: real)
    requires ValidRequest(dir, initial, marketLTV)
    ensures var z := SizingOf(initial, marketLTV, target, minBorrow);
            && z.Valid() && z.goal >= 0.0 && z.slack == EPSILON * initial && z.minBorrow == minBorrow
            && z.ltv == 0.75 * marketLTV
            && 1.0 <= Clamp(target, z.ltv) <= MAX_LEVERAGE && z.goal == (Clamp(target, z.ltv) - 1.0) * initial
  {
    var ltv := marketLTV * SAFETY_BUFFER;
    OverOne(ltv);
    Scaled(EPSILON, initial);
    Times(0.0, Clamp(target, ltv) - 1.0, initial);
  }

  lemma OverOne(ltv: real)
    requires 0.0 < ltv < 1.0
    ensures 1.0 / (1.0 - ltv) > 1.0
  {
    ScaleLess(1.0, 1.0 / (1.0 - ltv), 1.0 - ltv);
  }

  /** Every plan stays under the target, the cap and the loan-to-value ceiling, and its debt is within the leg's
      loan-to-value of all that was supplied: the exposure but for the last proceeds. */
  lemma PlansAreBounded(dir: Direction, initial: real, marketLTV: real, target: real, minBorrow: real)
    requires ValidRequest(dir, initial, marketLTV)
    ensures var p := PlanFor(dir, initial, marketLTV, target, minBorrow);
            && 0.0 <= p.totalBorrowed <= p.legLTV * (p.totalExposure - LastHeld(p)) && LastHeld(p) > 0.0
            && 1.0 <= p.achieved <= p.target <= MAX_LEVERAGE && p.achieved < 1.0 / (1.0 - p.legLTV)
            && p.totalExposure == p.achieved * initial == initial + p.totalBorrowed
  {
    hide Borrows, Legs, SizingOf, Clamp, Sum, LastHeld, Sizing.Next, Last;
    var z := SizingOf(initial, marketLTV, target, minBorrow);
    RequestIsSized(dir, initial, marketLTV, target, minBorrow);
    LastLeg(dir, initial, marketLTV, target, minBorrow);
    var bs := Borrows(z, initial, 0.0, MAX_LEGS);
    BorrowsKeep(z, initial, 0.0, MAX_LEGS);
    DebtBound(z.ltv, initial, bs);
    LastPositive(z.ltv, initial, bs);
    WithinCeiling(z.ltv, initial, Sum(bs), Last(initial, bs));
    WithinTarget(initial, Sum(bs), Clamp(target, z.ltv));
    PlanFields(dir, initial, marketLTV, target, minBorrow);
    hide PlanFor;
  }

  lemma PlanFields(dir: Direction, initial: real, marketLTV: real, target: real, minBorrow: real)
    requires ValidRequest(dir, initial, marketLTV)
    ensures var z := SizingOf(initial, marketLTV, target, minBorrow);
            var bs := Borrows(z, initial, 0.0, MAX_LEGS);
            var p := PlanFor(dir, initial, marketLTV, target, minBorrow);
            && p.direction == dir && p.initial == initial && p.legLTV == z.ltv && p.target == Clamp(target, z.ltv)
            && p.totalBorrowed == Sum(bs) && p.totalExposure == initial + Sum(bs)
            && p.achieved == 1.0 + Sum(bs) / initial && p.legs == Legs(initial, initial, 0.0, bs, 0)
  {
    hide Borrows, Legs, SizingOf, Clamp, Sum;
  }

  lemma LastPositive(ltv: real, held: real, bs: seq<real>)
    requires held > 0.0 && Chain(ltv, held, bs)
    ensures Last(held, bs) > 0.0
    decreases |bs|
  {
    if bs != [] {
      LastPositive(ltv, bs[0], bs[1..]);
    }
  }

  lemma WithinCeiling(ltv: real, initial: real, debt: real, last: real)
    requires 0.0 < ltv < 1.0 && initial > 0.0 && last > 0.0 && debt <= Full(ltv, initial + debt - last)
    ensures 1.0 + debt / initial < 1.0 / (1.0 - ltv)
    ensures debt <= ltv * (initial + debt - last)
  {
    hide Full;
    var a := 1.0 + debt / initial;
    Exposed(initial, debt, a);
    Kept(ltv, initial, debt, last);
    CeilingBy(a, 1.0 - ltv, initial, initial + debt);
    FullIs(ltv, initial + debt - last);
  }

  lemma FullIs(ltv: real, held: real)
    ensures Full(ltv, held) == ltv * held
  {
  }

  lemma CeilingBy(a: real, w: real, initial: real, sum: real)
    requires initial > 0.0 && w > 0.0 && a * initial == sum && sum * w < initial
    ensures a < 1.0 / w
  {
    Same(w, sum, a * initial);
    PerUnit(initial, a * w, sum * w);
    UnderInverse(a, w, 1.0);
  }

  lemma Kept(ltv: real, initial: real, debt: real, last: real)
    requires ltv > 0.0 && last > 0.0 && debt <= Full(ltv, initial + debt - last)
    ensures (initial + debt) * (1.0 - ltv) < initial
  {
    Scaled(ltv, last);
  }

  lemma WithinTarget(initial: real, debt: real, target: real)
    requires initial > 0.0 && 0.0 <= debt <= (target - 1.0) * initial
    ensures 1.0 <= 1.0 + debt / initial <= target && (1.0 + debt / initial) * initial == initial + debt
  {
    var share := debt / initial;
    assert share * initial == debt;
    Between(share, target - 1.0, initial, debt);
    Exposed(initial, debt, 1.0 + share);
  }

  /** The target of a plan is the requested leverage where that is between 1 and 1.8 and under the ceiling of endless
      looping, and the nearest such figure where it is not. */
  lemma TargetIsNearest(requested: real, ltv: real)
    requires 0.0 < ltv < 1.0
    ensures var t, ceiling := Clamp(requested, ltv), 1.0 / (1.0 - ltv);
            && 1.0 <= t <= 1.8 && t <= ceiling
            && (1.0 <= requested <= 1.8 && requested <= ceiling ==> t == requested)
            && (requested < 1.0 ==> t == 1.0)
            && (requested > 1.8 || requested > ceiling ==> t == 1.8 || t == ceiling)
  {
    OverOne(ltv);
  }

  /** With no minimum borrow the plan is optimal: no loop allowed on the same terms borrows more than a
      billionth of the capital above it. */
  lemma PlanIsOptimal(dir: Direction, initial: real, marketLTV: real, target: real, minBorrow: real, cs: seq<real>)
    requires ValidRequest(dir, initial, marketLTV) && minBorrow <= 0.0
    ensures var z := SizingOf(initial, marketLTV, target, minBorrow);
            Allowed(z, initial, MAX_LEGS, cs) ==>
              Sum(cs) <= PlanFor(dir, initial, marketLTV, target, minBorrow).totalBorrowed + 0.000000001 * initial
  {
    hide Borrows, SizingOf, Clamp, Sum, Chain;
    RequestIsSized(dir, initial, marketLTV, target, minBorrow);
    PlanFields(dir, initial, marketLTV, target, minBorrow);
    hide PlanFor;
    var z := SizingOf(initial, marketLTV, target, minBorrow);
    if Allowed(z, initial, MAX_LEGS, cs) {
      NoLoopDoesBetter(z, initial, 0.0, MAX_LEGS, initial, 0.0, cs);
    }
  }

  /** With a minimum, the plan is less than one minimum borrow short of every loop allowed on the same terms, and
      it is within the slack of all of them unless one more leg would do on less capital. */
  lemma PlanWithMinimum(dir: Direction, initial: real, marketLTV: real, target: real, minBorrow: real)
    requires ValidRequest(dir, initial, marketLTV) && minBorrow > 0.0
    ensures var z := SizingOf(initial, marketLTV, target, minBorrow);
            var total := PlanFor(dir, initial, marketLTV, target, minBorrow).totalBorrowed;
            && (forall cs :: Allowed(z, initial, MAX_LEGS, cs) ==>
                  Sum(cs) <= total + EPSILON * initial || Sum(cs) < total + minBorrow)
            && ((forall cs :: Allowed(z, initial, MAX_LEGS, cs) ==> Sum(cs) <= total + EPSILON * initial)
                <==> !MissesALeg(z, initial, MAX_LEGS))
  {
    hide Borrows, SizingOf, Clamp, Sum, Chain, MissesALeg;
    RequestIsSized(dir, initial, marketLTV, target, minBorrow);
    PlanFields(dir, initial, marketLTV, target, minBorrow);
    hide PlanFor;
    var z := SizingOf(initial, marketLTV, target, minBorrow);
    WhenAPlanFallsShort(z, initial, MAX_LEGS);
    forall cs | Allowed(z, initial, MAX_LEGS, cs)
      ensures var total := PlanFor(dir, initial, marketLTV, target, minBorrow).totalBorrowed;
              Sum(cs) <= total + EPSILON * initial || Sum(cs) < total + minBorrow
    {
      NoLoopDoesBetter(z, initial, 0.0, MAX_LEGS, initial, 0.0, cs);
    }
  }

  /** Greedy legs are not optimal under a minimum: of 1000 at a market loan-to-value of one half, the plan for
      1.39x borrows 375 and stops, for the 15 left are under the minimum of 20; 370 and then 20 land on target. */
  lemma GreedyCanFallShort()
    ensures var z := SizingOf(1000.0, 0.5, 1.39, 20.0);
            z.Valid() && Borrows(z, 1000.0, 0.0, MAX_LEGS) == [375.0]
            && Allowed(z, 1000.0, MAX_LEGS, [370.0, 20.0]) && Sum([370.0, 20.0]) == z.goal == 390.0
  {
    var z := SizingOf(1000.0, 0.5, 1.39, 20.0);
    assert Clamp(1.39, 0.375) == 1.39;
    assert z == Sizing(0.375, 390.0, 0.000001, 20.0);
    Peel(z, 1000.0, 0.0, MAX_LEGS);
    Peel(z, 375.0, 375.0, MAX_LEGS - 1);
    assert [370.0, 20.0][1..] == [20.0];
    assert Chain(0.375, 370.0, [20.0]);
    assert Sum([20.0]) == 20.0;
  }
}
