/** The leverage loop as it runs on a temporary wallet: each leg supplies everything held, borrows the leg's
    loan-to-value of it at the lender's prices, and trades the proceeds back. The legs sized in the plan are not
    consulted; what is executed follows from the balances. */
module LiveLoop {
  import opened LeveragePlan
  import opened RealArithmetic
  import opened Wrappers

  /** The lender's view of a market: its prices, and a swap estimate where it has none. */
  datatype Lender = Lender(sameUnit: bool, colPrice: real, borPrice: real, estimate: Option<real>)

  /** What became of a lend order, or of a swap of everything held. A swap that fills does so at some rate. */
  datatype Delivery = NotSubmitted | Undelivered | Delivered
  datatype Fill = NotSwapped | Unfilled | Filled(rate: real)

  datatype LegEvent = LegEvent(lender: Lender, delivery: Delivery, fill: Fill)

  datatype Opened = Opened(supply: real, debt: real, lender: Lender)

  datatype Holdings = Holdings(base: real, target: real, positions: seq<Opened>)

  // ---------- one operation ----------

  /** None: the estimate was needed and failed. */
  function BorrowAmount(lender: Lender, supply: real, ltv: real): Option<real> {
    if lender.sameUnit then Some(supply * ltv)
    else if lender.colPrice > 0.0 && lender.borPrice > 0.0 then
      Some(supply * (lender.colPrice / lender.borPrice) * ltv)
    else if lender.estimate.None? then None
    else Some(lender.estimate.value * ltv)
  }

  /** What may be put to use of a balance: a base balance keeps the fee reserve back. */
  function Free(h: Holdings, inBase: bool, reserve: real): real {
    if inBase then h.base - reserve else h.target
  }

  function Take(h: Holdings, inBase: bool, amount: real): Holdings {
    if inBase then h.(base := h.base - amount) else h.(target := h.target - amount)
  }

  function Put(h: Holdings, inBase: bool, amount: real): Holdings {
    if inBase then h.(base := h.base + amount) else h.(target := h.target + amount)
  }

  function Proceeds(amount: real, rate: real): real {
    amount * rate
  }

  /** One lend order: the collateral leaves once it is submitted; the proceeds arrive if it settles. */
  function LegOpened(h: Holdings, long: bool, reserve: real, ltv: real, e: LegEvent): (Holdings, bool) {
    var supply := Free(h, !long, reserve);
    var borrow := BorrowAmount(e.lender, supply, ltv);
    if supply <= 0.0 || borrow.None? || borrow.value <= 0.0 || e.delivery == NotSubmitted then (h, false)
    else
      var lent := Take(h, !long, supply).(positions := h.positions + [Opened(supply, borrow.value, e.lender)]);
      if e.delivery == Undelivered then (lent, false) else (Put(lent, long, borrow.value), true)
  }

  /** One swap of all that is free. */
  function Traded(h: Holdings, fromBase: bool, reserve: real, fill: Fill): (Holdings, bool) {
    var amount := Free(h, fromBase, reserve);
    if amount <= 0.0 || fill == NotSwapped then (h, false)
    else
      var sold := Take(h, fromBase, amount);
      if fill == Unfilled then (sold, false) else (Put(sold, !fromBase, Proceeds(amount, fill.rate)), true)
  }

  function LegRun(h: Holdings, long: bool, reserve: real, ltv: real, e: LegEvent): (Holdings, bool) {
    var (lent, ok) := LegOpened(h, long, reserve, ltv, e);
    if ok then Traded(lent, long, reserve, e.fill) else (lent, false)
  }

  function LegsRun(h: Holdings, long: bool, reserve: real, ltv: real, es: seq<LegEvent>): (Holdings, bool)
    decreases |es|
  {
    if es == [] then (h, true)
    else
      var (next, ok) := LegRun(h, long, reserve, ltv, es[0]);
      if ok then LegsRun(next, long, reserve, ltv, es[1..]) else (next, false)
  }

  /** The whole build: a long first buys the target with the capital. */
  function Built(h: Holdings, long: bool, reserve: real, ltv: real, first: Fill, es: seq<LegEvent>): (Holdings, bool) {
    if long then
      var (bought, ok) := Traded(h, true, reserve, first);
      if ok then LegsRun(bought, long, reserve, ltv, es) else (bought, false)
    else LegsRun(h, long, reserve, ltv, es)
  }

  // ---------- the wallet ----------

  class TempWallet {
    var base: real
    var target: real
    var positions: seq<Opened>

    function Held(): Holdings
      reads this
    {
      Holdings(base, target, positions)
    }

    method OpenLeg(long: bool, reserve: real, ltv: real, e: LegEvent) returns (ok: bool)
      modifies this
      ensures (Held(), ok) == LegOpened(old(Held()), long, reserve, ltv, e)
    {
      hide BorrowAmount;
      var supply := if long then target else base - reserve;
      if supply <= 0.0 { return false; }
      var borrow := BorrowAmount(e.lender, supply, ltv);
      if borrow.None? { return false; }
      if borrow.value <= 0.0 { return false; }
      if e.delivery == NotSubmitted { return false; }
      positions := positions + [Opened(supply, borrow.value, e.lender)];
      if long { target := target - supply; } else { base := base - supply; }
      if e.delivery == Undelivered { return false; }
      if long { base := base + borrow.value; } else { target := target + borrow.value; }
      return true;
    }

    method TradeAll(fromBase: bool, reserve: real, fill: Fill) returns (ok: bool)
      modifies this`base, this`target
      ensures (Held(), ok) == Traded(old(Held()), fromBase, reserve, fill)
    {
      hide Proceeds;
      var amount := if fromBase then base - reserve else target;
      if amount <= 0.0 { return false; }
      if fill == NotSwapped { return false; }
      if fromBase { base := base - amount; } else { target := target - amount; }
      if fill == Unfilled { return false; }
      var proceeds := Proceeds(amount, fill.rate);
      if fromBase { target := target + proceeds; } else { base := base + proceeds; }
      return true;
    }

    method RunLegs(long: bool, reserve: real, ltv: real, es: seq<LegEvent>) returns (ok: bool)
      modifies this
      ensures (Held(), ok) == LegsRun(old(Held()), long, reserve, ltv, es)
    {
      hide LegOpened, Traded;
      var i := 0;
      while i < |es|
        invariant 0 <= i <= |es|
        invariant LegsRun(Held(), long, reserve, ltv, es[i..]) == LegsRun(old(Held()), long, reserve, ltv, es)
      {
        assert es[i..][1..] == es[i + 1..];
        var lent := OpenLeg(long, reserve, ltv, es[i]);
        if !lent { return false; }
        var traded := TradeAll(long, reserve, es[i].fill);
        if !traded { return false; }
        i := i + 1;
      }
      return true;
    }

    method BuildPosition(long: bool, reserve: real, ltv: real, first: Fill, es: seq<LegEvent>) returns (ok: bool)
      modifies this
      ensures (Held(), ok) == Built(old(Held()), long, reserve, ltv, first, es)
    {
      hide Traded, LegsRun;
      if long {
        var bought := TradeAll(true, reserve, first);
        if !bought { return false; }
      }
      ok := RunLegs(long, reserve, ltv, es);
    }
  }

  // ---------- whatever the market does ----------

  /** The debt is the leg's loan-to-value of the collateral, at the lender's own prices. */
  predicate AtLTV(p: Opened, ltv: real) {
    if p.lender.sameUnit then p.debt == ltv * p.supply
    else if p.lender.colPrice > 0.0 && p.lender.borPrice > 0.0 then
      p.debt * p.lender.borPrice == ltv * (p.supply * p.lender.colPrice)
    else p.lender.estimate.Some? && p.debt == ltv * p.lender.estimate.value
  }

  predicate AllAtLTV(ps: seq<Opened>, ltv: real) {
    forall i :: 0 <= i < |ps| ==> AtLTV(ps[i], ltv)
  }

  lemma BorrowIsAtLTV(lender: Lender, supply: real, ltv: real)
    ensures var b := BorrowAmount(lender, supply, ltv);
            b.Some? ==> AtLTV(Opened(supply, b.value, lender), ltv)
  {
    if !lender.sameUnit && lender.colPrice > 0.0 && lender.borPrice > 0.0 {
      var px := lender.colPrice / lender.borPrice;
      assert px * lender.borPrice == lender.colPrice;
      Priced(supply, px, ltv, lender.borPrice, lender.colPrice);
    }
  }

  lemma Priced(supply: real, px: real, ltv: real, borPrice: real, colPrice: real)
    requires px * borPrice == colPrice
    ensures (supply * px * ltv) * borPrice == ltv * (supply * colPrice)
  {
    Same(ltv * supply, px * borPrice, colPrice);
  }

  /** Under any slippage, failures and price moves between legs, every position opened owes exactly the leg's
      loan-to-value of its collateral, and at most one is opened for each leg tried. */
  lemma {:induction false} DebtsAreAtLTV(h: Holdings, long: bool, reserve: real, ltv: real, es: seq<LegEvent>)
    ensures var after := LegsRun(h, long, reserve, ltv, es).0.positions;
            && |h.positions| <= |after| <= |h.positions| + |es| && after[..|h.positions|] == h.positions
            && AllAtLTV(after[|h.positions|..], ltv)
            && (LegsRun(h, long, reserve, ltv, es).1 ==> |after| == |h.positions| + |es|)
    decreases |es|
  {
    if es != [] {
      OneLegAtLTV(h, long, reserve, ltv, es[0]);
      var (next, ok) := LegRun(h, long, reserve, ltv, es[0]);
      hide LegRun, AtLTV;
      if ok {
        DebtsAreAtLTV(next, long, reserve, ltv, es[1..]);
        var after := LegsRun(next, long, reserve, ltv, es[1..]).0.positions;
        var p := next.positions[|h.positions|];
        assert after[|h.positions|] == p;
        assert after[|h.positions|..] == [p] + after[|next.positions|..];
        assert after[..|h.positions|] == next.positions[..|h.positions|];
      }
    }
  }

  lemma OneLegAtLTV(h: Holdings, long: bool, reserve: real, ltv: real, e: LegEvent)
    ensures var (next, ok) := LegRun(h, long, reserve, ltv, e);
            && ((next.positions == h.positions && !ok)
                || (|next.positions| == |h.positions| + 1 && next.positions[..|h.positions|] == h.positions
                    && AtLTV(next.positions[|h.positions|], ltv)))
  {
    var supply := Free(h, !long, reserve);
    BorrowIsAtLTV(e.lender, supply, ltv);
    hide AtLTV, BorrowAmount;
  }

  // ---------- operations that do not go through ----------

  /** One lend order, on each balance: nothing happens where there is nothing free, no size, or no order; otherwise all
      that is free is lent against a debt of the size; what is borrowed arrives exactly if it is delivered, and then the
      leg goes on. */
  lemma LendMoves(h: Holdings, long: bool, reserve: real, ltv: real, e: LegEvent)
    ensures var free := if long then h.target else h.base - reserve;
            var size := BorrowAmount(e.lender, free, ltv);
            var (next, ok) := LegOpened(h, long, reserve, ltv, e);
            if free > 0.0 && size.Some? && size.value > 0.0 && e.delivery != NotSubmitted then
              && (ok <==> e.delivery == Delivered)
              && next.positions == h.positions + [Opened(free, size.value, e.lender)]
              && (long ==> next.target == 0.0 && next.base == h.base + if ok then size.value else 0.0)
              && (!long ==> next.base == reserve && next.target == h.target + if ok then size.value else 0.0)
            else next == h && !ok
  {
  }

  /** One swap: nothing happens where there is nothing free or no order; otherwise all that is free is sold, and what is
      bought arrives exactly if the order fills. */
  lemma SwapMoves(h: Holdings, fromBase: bool, reserve: real, fill: Fill)
    ensures var free := if fromBase then h.base - reserve else h.target;
            var (next, ok) := Traded(h, fromBase, reserve, fill);
            && next.positions == h.positions
            && if free > 0.0 && fill != NotSwapped then
                 && (ok <==> fill.Filled?)
                 && var bought := if ok then free * fill.rate else 0.0;
                    && (fromBase ==> next.base == reserve && next.target == h.target + bought)
                    && (!fromBase ==> next.target == 0.0 && next.base == h.base + bought)
               else next == h && !ok
  {
  }

  /** Nothing is done after an operation that did not go through. */
  lemma {:induction false} NothingAfterAFailure(h: Holdings, long: bool, reserve: real, ltv: real, es: seq<LegEvent>,
                                                more: seq<LegEvent>)
    ensures !LegsRun(h, long, reserve, ltv, es).1 ==>
              LegsRun(h, long, reserve, ltv, es + more) == LegsRun(h, long, reserve, ltv, es)
    decreases |es|
  {
    if es != [] {
      assert (es + more)[0] == es[0] && (es + more)[1..] == es[1..] + more;
      NothingAfterAFailure(LegRun(h, long, reserve, ltv, es[0]).0, long, reserve, ltv, es[1..], more);
    }
  }

  lemma FailedBuyEndsTheRun(h: Holdings, reserve: real, ltv: real, first: Fill, es: seq<LegEvent>)
    ensures var (bought, ok) := Traded(h, true, reserve, first);
            !ok ==> Built(h, true, reserve, ltv, first, es) == (bought, false)
    ensures !first.Filled? ==> !Built(h, true, reserve, ltv, first, es).1
  {
  }

  /** A swap gives something for what it takes. */
  predicate PositiveFill(fill: Fill) {
    fill.Filled? ==> fill.rate > 0.0
  }

  predicate PositiveFills(es: seq<LegEvent>) {
    forall i :: 0 <= i < |es| ==> PositiveFill(es[i].fill)
  }

  predicate ReserveHeld(h: Holdings, reserve: real) {
    h.base >= reserve && h.target >= 0.0
  }

  lemma {:induction false} LegsKeepReserve(h: Holdings, long: bool, reserve: real, ltv: real, es: seq<LegEvent>)
    requires ReserveHeld(h, reserve) && PositiveFills(es)
    ensures ReserveHeld(LegsRun(h, long, reserve, ltv, es).0, reserve)
    decreases |es|
  {
    hide LegOpened, Traded;
    if es != [] {
      var e := es[0];
      LendMoves(h, long, reserve, ltv, e);
      var lent := LegOpened(h, long, reserve, ltv, e).0;
      SwapKeepsReserve(lent, long, reserve, e.fill);
      LegsKeepReserve(LegRun(h, long, reserve, ltv, e).0, long, reserve, ltv, es[1..]);
    }
  }

  lemma SwapKeepsReserve(h: Holdings, fromBase: bool, reserve: real, fill: Fill)
    requires ReserveHeld(h, reserve) && PositiveFill(fill)
    ensures ReserveHeld(Traded(h, fromBase, reserve, fill).0, reserve)
  {
    hide Traded;
    SwapMoves(h, fromBase, reserve, fill);
    var free := if fromBase then h.base - reserve else h.target;
    if fill.Filled? && free > 0.0 {
      Scaled(free, fill.rate);
    }
  }

  /** No run spends the fee reserve or more of the target than there is, whatever the prices and whatever fails. */
  lemma ReserveIsKept(h: Holdings, long: bool, reserve: real, ltv: real, first: Fill, es: seq<LegEvent>)
    requires ReserveHeld(h, reserve) && PositiveFill(first) && PositiveFills(es)
    ensures ReserveHeld(Built(h, long, reserve, ltv, first, es).0, reserve)
  {
    hide Traded, LegsRun;
    if long {
      SwapKeepsReserve(h, true, reserve, first);
      LegsKeepReserve(Traded(h, true, reserve, first).0, long, reserve, ltv, es);
    } else {
      LegsKeepReserve(h, long, reserve, ltv, es);
    }
  }

  // ---------- a sale that does not go out ----------

  /** A leg whose proceeds were not sold leaves nothing to supply: whatever the next leg meets, it fails and changes
      nothing. So such a leg is the last of its run. */
  lemma UnsoldLegStarvesTheNext(h: Holdings, long: bool, reserve: real, ltv: real, e: LegEvent, f: LegEvent)
    requires e.fill == NotSwapped
    ensures var (next, ok) := LegRun(h, long, reserve, ltv, e);
            !ok && (next != h ==> LegOpened(next, long, reserve, ltv, f) == (next, false))
  {
    hide BorrowAmount;
  }

  /** Selling everything free later, as a resumed long does with its base, comes to the sale that was missed. */
  lemma CatchUpIsTheSale(h: Holdings, long: bool, reserve: real, ltv: real, e: LegEvent, fill: Fill)
    requires LegOpened(h, long, reserve, ltv, e).1
    ensures var missed := LegRun(h, long, reserve, ltv, e.(fill := NotSwapped)).0;
            Traded(missed, long, reserve, fill) == LegRun(h, long, reserve, ltv, e.(fill := fill))
  {
    hide BorrowAmount, Proceeds;
  }

  // ---------- at a constant price ----------

  /** The target keeps costing `price` in base: the lender's prices say so, swaps fill at it, and nothing fails. */
  predicate SteadyLeg(e: LegEvent, long: bool, price: real) {
    && e.delivery == Delivered && e.fill.Filled? && !e.lender.sameUnit
    && e.lender.colPrice > 0.0 && e.lender.borPrice > 0.0
    && (if long then e.lender.colPrice == price * e.lender.borPrice && e.fill.rate * price == 1.0
        else e.lender.borPrice == price * e.lender.colPrice && e.fill.rate == price)
  }

  predicate Steady(es: seq<LegEvent>, long: bool, price: real) {
    forall i :: 0 <= i < |es| ==> SteadyLeg(es[i], long, price)
  }

  function Worth(amount: real, inBase: bool, price: real): real {
    if inBase then amount else Proceeds(amount, price)
  }

  function Values(amounts: seq<real>, inBase: bool, price: real): (vs: seq<real>)
    ensures |vs| == |amounts|
    ensures forall i :: 0 <= i < |amounts| ==> vs[i] == Worth(amounts[i], inBase, price)
  {
    seq(|amounts|, i requires 0 <= i < |amounts| => Worth(amounts[i], inBase, price))
  }

  function Debts(ps: seq<Opened>): seq<real> {
    seq(|ps|, i requires 0 <= i < |ps| => ps[i].debt)
  }

  function Supplies(ps: seq<Opened>): seq<real> {
    seq(|ps|, i requires 0 <= i < |ps| => ps[i].supply)
  }

  /** What is supplied when every leg supplies what the leg before it borrowed in full. */
  function FullSupplies(ltv: real, held: real, k: nat): (bs: seq<real>)
    ensures |bs| == k
    decreases k, ltv, held
  {
    if k == 0 then [] else [held] + FullSupplies(ltv, Full(ltv, held), k - 1)
  }

  /** Between legs everything is held as collateral, worth `value` in base. */
  predicate Ready(h: Holdings, long: bool, reserve: real, price: real, value: real) {
    Free(h, long, reserve) == 0.0 && Worth(Free(h, !long, reserve), !long, price) == value
  }

  lemma LongBorrow(lender: Lender, supply: real, ltv: real, price: real, value: real)
    requires !lender.sameUnit && lender.colPrice > 0.0 && lender.borPrice > 0.0
    requires lender.colPrice == price * lender.borPrice && Proceeds(supply, price) == value
    ensures var b := BorrowAmount(lender, supply, ltv); b.Some? && b.value == Full(ltv, value)
  {
    var px := lender.colPrice / lender.borPrice;
    assert px * lender.borPrice == lender.colPrice;
    EqualBy(px, price, lender.borPrice);
    Same(supply, px, price);
    Same(ltv, supply * px, value);
    var borrow := supply * px * ltv;
    assert borrow == Full(ltv, value);
  }

  lemma ShortBorrow(lender: Lender, supply: real, ltv: real, price: real)
    requires !lender.sameUnit && lender.colPrice > 0.0 && lender.borPrice > 0.0
    requires lender.borPrice == price * lender.colPrice
    ensures var b := BorrowAmount(lender, supply, ltv);
            b.Some? && Proceeds(b.value, price) == Full(ltv, supply)
  {
    var px := lender.colPrice / lender.borPrice;
    assert px * lender.borPrice == lender.colPrice;
    var inverse := px * price;
    InverseOf(px, price, lender.colPrice, lender.borPrice, inverse);
    Same(supply * ltv, inverse, 1.0);
  }

  lemma InverseOf(px: real, price: real, col: real, bor: real, inverse: real)
    requires col > 0.0 && px * bor == col && bor == price * col && inverse == px * price
    ensures inverse == 1.0
  {
    Same(px, bor, price * col);
    Same(col, inverse, px * price);
    EqualBy(inverse, 1.0, col);
  }

  lemma WorthPositive(amount: real, price: real, value: real)
    requires price > 0.0 && Proceeds(amount, price) == value > 0.0
    ensures amount > 0.0
  {
    ScaleLess(0.0, amount, price);
  }

  lemma BoughtBack(amount: real, rate: real, price: real)
    requires rate * price == 1.0
    ensures Proceeds(Proceeds(amount, rate), price) == amount
  {
    Same(amount, rate * price, 1.0);
  }

  /** One steady leg: it supplies what is held, owes the loan-to-value of it, and holds that next. */
  lemma LegAtPrice(h: Holdings, long: bool, reserve: real, ltv: real, e: LegEvent, price: real, value: real)
    requires SteadyLeg(e, long, price) && price > 0.0 && ltv > 0.0 && value > 0.0
    requires Ready(h, long, reserve, price, value)
    ensures var (next, ok) := LegRun(h, long, reserve, ltv, e);
            && ok && Ready(next, long, reserve, price, Full(ltv, value))
            && |next.positions| == |h.positions| + 1 && next.positions[..|h.positions|] == h.positions
            && var p := next.positions[|h.positions|];
               Worth(p.supply, !long, price) == value && Worth(p.debt, long, price) == Full(ltv, value)
  {
    hide BorrowAmount, Proceeds, Full;
    var supply := Free(h, !long, reserve);
    FullPositive(ltv, value);
    if long {
      WorthPositive(supply, price, value);
      LongBorrow(e.lender, supply, ltv, price, value);
      BoughtBack(Full(ltv, value), e.fill.rate, price);
    } else {
      ShortBorrow(e.lender, supply, ltv, price);
      WorthPositive(BorrowAmount(e.lender, supply, ltv).value, price, Full(ltv, value));
    }
  }

  /** The run of any number of steady legs borrows in full, leg after leg. */
  lemma {:induction false} LegsAtPrice(h: Holdings, long: bool, reserve: real, ltv: real, es: seq<LegEvent>,
                                       price: real, value: real)
    requires Steady(es, long, price) && price > 0.0 && ltv > 0.0 && value > 0.0
    requires Ready(h, long, reserve, price, value)
    ensures var (after, ok) := LegsRun(h, long, reserve, ltv, es);
            && ok && |after.positions| == |h.positions| + |es| && after.positions[..|h.positions|] == h.positions
            && Values(Debts(after.positions[|h.positions|..]), long, price) == FullBorrows(ltv, value, |es|)
            && Values(Supplies(after.positions[|h.positions|..]), !long, price) == FullSupplies(ltv, value, |es|)
    decreases |es|
  {
    if es != [] {
      LegAtPrice(h, long, reserve, ltv, es[0], price, value);
      FullPositive(ltv, value);
      var next := LegRun(h, long, reserve, ltv, es[0]).0;
      hide LegRun, Worth, Ready, Full, SteadyLeg, Values, Debts, Supplies;
      LegsAtPrice(next, long, reserve, ltv, es[1..], price, Full(ltv, value));
      AddPosition(h.positions, next.positions, LegsRun(next, long, reserve, ltv, es[1..]).0.positions, long, price);
    }
  }

  lemma AddPosition(before: seq<Opened>, next: seq<Opened>, after: seq<Opened>, long: bool, price: real)
    requires |next| == |before| + 1 && next[..|before|] == before && |after| >= |next| && after[..|next|] == next
    ensures after[..|before|] == before && after[|before|] == next[|before|]
    ensures Values(Debts(after[|before|..]), long, price)
            == [Worth(next[|before|].debt, long, price)] + Values(Debts(after[|next|..]), long, price)
    ensures Values(Supplies(after[|before|..]), !long, price)
            == [Worth(next[|before|].supply, !long, price)] + Values(Supplies(after[|next|..]), !long, price)
  {
    hide Worth;
    assert after[..|before|] == after[..|next|][..|before|];
    assert after[|before|..] == [after[|before|]] + after[|next|..];
    assert after[..|next|][|before|] == next[|before|];
  }

  // ---------- the run and the plan ----------

  predicate Funded(h: Holdings, reserve: real, initial: real) {
    h.base - reserve == initial && h.target == 0.0 && h.positions == []
  }

  lemma BuiltAtPrice(h: Holdings, long: bool, reserve: real, ltv: real, first: Fill, es: seq<LegEvent>, price: real,
                     initial: real)
    requires Funded(h, reserve, initial) && initial > 0.0 && ltv > 0.0
    requires price > 0.0 && first.Filled? && first.rate * price == 1.0 && Steady(es, long, price)
    ensures var (after, ok) := Built(h, long, reserve, ltv, first, es);
            && ok && |after.positions| == |es|
            && Values(Debts(after.positions), long, price) == FullBorrows(ltv, initial, |es|)
            && Values(Supplies(after.positions), !long, price) == FullSupplies(ltv, initial, |es|)
  {
    hide Proceeds, LegRun, Values, Supplies, Debts;
    if long {
      BoughtBack(initial, first.rate, price);
      LegsAtPrice(Traded(h, true, reserve, first).0, long, reserve, ltv, es, price, initial);
    } else {
      LegsAtPrice(h, long, reserve, ltv, es, price, initial);
    }
    var after := Built(h, long, reserve, ltv, first, es).0;
    assert after.positions[0..] == after.positions;
  }

  /** How far the last borrow was tapered below a full one. */
  function Taper(ltv: real, held: real, bs: seq<real>): real {
    if bs == [] then 0.0 else Full(ltv, if |bs| == 1 then held else bs[|bs| - 2]) - bs[|bs| - 1]
  }

  /** A plan's borrows are full ones but for a tapered last, and only a plan that lands on the goal is tapered. */
  lemma {:induction false} PlanButForTaper(z: Sizing, held: real, debt: real, n: nat)
    requires z.Valid() && held > 0.0
    ensures var bs := Borrows(z, held, debt, n);
            var full := FullBorrows(z.ltv, held, |bs|);
            && Taper(z.ltv, held, bs) >= 0.0
            && (bs != [] ==> bs[..|bs| - 1] == full[..|bs| - 1]
                             && full[|bs| - 1] == bs[|bs| - 1] + Taper(z.ltv, held, bs))
            && Sum(full) == Sum(bs) + Taper(z.ltv, held, bs)
            && [held] + bs == FullSupplies(z.ltv, held, |bs|) + [Last(held, bs)]
            && (Taper(z.ltv, held, bs) > 0.0 ==> debt + Sum(bs) == z.goal)
    decreases n
  {
    hide Borrows, Sum, Full;
    FullPositive(z.ltv, held);
    Peel(z, held, debt, n);
    if n > 0 && z.Next(held, debt) != None {
      var b := z.Next(held, debt).value;
      PeelFull(z.ltv, held, |Borrows(z, held, debt, n)|);
      if b == Full(z.ltv, held) {
        PlanButForTaper(z, b, debt + b, n - 1);
        AddFull(z.ltv, held, b, Borrows(z, b, debt + b, n - 1));
      } else {
        LoopEnds(z, b, debt + b, n - 1);
        OneTapered(z.ltv, held, b);
      }
    } else {
      NoBorrows(z.ltv, held);
    }
  }

  lemma NoBorrows(ltv: real, held: real)
    ensures Sum(FullBorrows(ltv, held, 0)) == 0.0 && [held] + [] == FullSupplies(ltv, held, 0) + [held]
  {
  }

  lemma OneTapered(ltv: real, held: real, b: real)
    ensures FullBorrows(ltv, held, 1) == [Full(ltv, held)] && Sum(FullBorrows(ltv, held, 1)) == Full(ltv, held)
    ensures Sum([b]) == b && FullSupplies(ltv, held, 1) == [held]
  {
    assert FullBorrows(ltv, held, 1)[1..] == [];
    assert [b][1..] == [];
  }

  lemma AddFull(ltv: real, held: real, b: real, rest: seq<real>)
    requires b == Full(ltv, held)
    requires rest != [] ==> rest[..|rest| - 1] == FullBorrows(ltv, b, |rest|)[..|rest| - 1]
    requires [b] + rest == FullSupplies(ltv, b, |rest|) + [Last(b, rest)]
    ensures var bs := [b] + rest;
            var full := FullBorrows(ltv, held, |bs|);
            && full == [b] + FullBorrows(ltv, b, |rest|)
            && bs[..|bs| - 1] == full[..|bs| - 1] && Taper(ltv, held, bs) == Taper(ltv, b, rest)
            && [held] + bs == FullSupplies(ltv, held, |bs|) + [Last(held, bs)] && Last(held, bs) == Last(b, rest)
  {
    hide Full, FullBorrows, FullSupplies, Last, Taper;
    var bs := [b] + rest;
    FullSplit(ltv, held, |bs|);
    SupplySplit(ltv, held, |bs|);
    LastOf(ltv, held, b, rest);
    assert [held] + bs == [held] + ([b] + rest);
    if rest != [] {
      assert bs[..|bs| - 1] == [b] + rest[..|rest| - 1];
    }
  }

  lemma SupplySplit(ltv: real, held: real, k: nat)
    requires k > 0
    ensures FullSupplies(ltv, held, k) == [held] + FullSupplies(ltv, Full(ltv, held), k - 1)
  {
    hide Full;
  }

  lemma LastOf(ltv: real, held: real, b: real, rest: seq<real>)
    requires b == Full(ltv, held)
    ensures Last(held, [b] + rest) == Last(b, rest) && Taper(ltv, held, [b] + rest) == Taper(ltv, b, rest)
  {
    hide Full;
  }

  /** What the last leg of a plan leaves unborrowed of a full one. */
  function LastTaper(p: Plan): real {
    if p.legs == [] then 0.0
    else Full(p.legLTV, p.legs[|p.legs| - 1].supply) - p.legs[|p.legs| - 1].borrow
  }

  /** The plan's borrows and the sizing they come from. */
  lemma PlanBorrows(dir: Direction, initial: real, marketLTV: real, target: real, minBorrow: real)
    returns (z: Sizing, bs: seq<real>)
    requires ValidRequest(dir, initial, marketLTV)
    ensures var p := PlanFor(dir, initial, marketLTV, target, minBorrow);
            && z.Valid() && z.ltv == p.legLTV && z.goal == (p.target - 1.0) * initial && z.goal >= 0.0
            && bs == Borrows(z, initial, 0.0, MAX_LEGS) && |bs| == |p.legs| && p.totalBorrowed == Sum(bs)
            && (forall i :: 0 <= i < |bs| ==> p.legs[i].borrow == bs[i] && p.legs[i].supply == ([initial] + bs)[i])
            && Taper(z.ltv, initial, bs) == LastTaper(p)
  {
    hide Borrows, Sum, Clamp, SizingOf, Legs, PlanFor, Full;
    z := SizingOf(initial, marketLTV, target, minBorrow);
    bs := Borrows(z, initial, 0.0, MAX_LEGS);
    RequestIsSized(dir, initial, marketLTV, target, minBorrow);
    PlanFields(dir, initial, marketLTV, target, minBorrow);
    var p := PlanFor(dir, initial, marketLTV, target, minBorrow);
    forall i | 0 <= i < |bs|
      ensures p.legs[i].borrow == bs[i] && p.legs[i].supply == ([initial] + bs)[i]
    {
      LegIs(initial, initial, 0.0, bs, 0, i);
    }
    if bs != [] {
      assert p.legs[|bs| - 1].supply == ([initial] + bs)[|bs| - 1];
    }
  }

  /** At a constant price, with no slippage and no failures, a run of as many legs as the plan has supplies what the
      plan says on every leg and borrows it on every leg but a tapered last, where it borrows in full: for longs
      and shorts alike. */
  lemma RunReproducesPlan(dir: Direction, initial: real, marketLTV: real, target: real, minBorrow: real,
                          h: Holdings, reserve: real, first: Fill, es: seq<LegEvent>, price: real)
    requires ValidRequest(dir, initial, marketLTV) && Funded(h, reserve, initial)
    requires price > 0.0 && first.Filled? && first.rate * price == 1.0 && Steady(es, dir == Long, price)
    ensures var p := PlanFor(dir, initial, marketLTV, target, minBorrow);
            var (after, ok) := Built(h, dir == Long, reserve, p.legLTV, first, es);
            |es| == |p.legs| ==>
            && ok && |after.positions| == |p.legs|
            && (forall i :: 0 <= i < |p.legs| ==>
                  && Worth(after.positions[i].supply, dir != Long, price) == p.legs[i].supply
                  && Worth(after.positions[i].debt, dir == Long, price)
                     == p.legs[i].borrow + if i == |p.legs| - 1 then LastTaper(p) else 0.0)
            && Sum(Values(Debts(after.positions), dir == Long, price)) == p.totalBorrowed + LastTaper(p)
  {
    hide Borrows, Sum, PlanFor, Built, Full, Values, Worth;
    var p := PlanFor(dir, initial, marketLTV, target, minBorrow);
    var z, bs := PlanBorrows(dir, initial, marketLTV, target, minBorrow);
    if |es| == |p.legs| {
      BuiltAtPrice(h, dir == Long, reserve, z.ltv, first, es, price, initial);
      PlanButForTaper(z, initial, 0.0, MAX_LEGS);
      var after := Built(h, dir == Long, reserve, p.legLTV, first, es).0;
      forall i | 0 <= i < |p.legs|
        ensures Worth(after.positions[i].supply, dir != Long, price) == p.legs[i].supply
        ensures Worth(after.positions[i].debt, dir == Long, price)
                == p.legs[i].borrow + if i == |p.legs| - 1 then LastTaper(p) else 0.0
      {
        assert Values(Supplies(after.positions), dir != Long, price)[i] == ([initial] + bs)[i];
        assert Values(Debts(after.positions), dir == Long, price)[i] == FullBorrows(z.ltv, initial, |bs|)[i];
        if i < |bs| - 1 {
          assert bs[..|bs| - 1][i] == FullBorrows(z.ltv, initial, |bs|)[..|bs| - 1][i];
        }
      }
    }
  }

  /** Full legs where the plan tapered pass the target, but never the ceiling of endless looping. */
  lemma TaperPassesTarget(dir: Direction, initial: real, marketLTV: real, target: real, minBorrow: real)
    requires ValidRequest(dir, initial, marketLTV)
    ensures var p := PlanFor(dir, initial, marketLTV, target, minBorrow);
            var executed := initial + p.totalBorrowed + LastTaper(p);
            && LastTaper(p) >= 0.0 && (executed > p.target * initial <==> LastTaper(p) > 0.0)
            && executed < initial / (1.0 - p.legLTV)
  {
    hide Borrows, Sum, PlanFor, Full;
    var p := PlanFor(dir, initial, marketLTV, target, minBorrow);
    var z, bs := PlanBorrows(dir, initial, marketLTV, target, minBorrow);
    PlanButForTaper(z, initial, 0.0, MAX_LEGS);
    BorrowsKeep(z, initial, 0.0, MAX_LEGS);
    PlansAreBounded(dir, initial, marketLTV, target, minBorrow);
    var w, full := 1.0 - z.ltv, initial + Sum(FullBorrows(z.ltv, initial, |bs|));
    FullUnderCeiling(z.ltv, initial, |bs|, w, full);
    TargetWorth(p.target, initial, z.goal);
  }

  lemma FullUnderCeiling(ltv: real, initial: real, k: nat, w: real, executed: real)
    requires 0.0 < ltv < 1.0 && initial > 0.0
    requires w == 1.0 - ltv && executed == initial + Sum(FullBorrows(ltv, initial, k))
    ensures executed < initial / w
  {
    hide FullBorrows, Sum, Full, Reach, Pow, Last;
    var full := FullBorrows(ltv, initial, k);
    FullBorrowsSum(ltv, initial, k);
    DebtBound(ltv, initial, full);
    LastPositive(ltv, initial, full);
    Kept(ltv, initial, Sum(full), Last(initial, full));
    var ceiling := initial / w;
    assert ceiling * w == initial;
    assert executed * w == (initial + Sum(full)) * (1.0 - ltv);
    Under(executed, ceiling, w, initial);
  }

  lemma TargetWorth(target: real, initial: real, goal: real)
    requires goal == (target - 1.0) * initial
    ensures target * initial == initial + goal
  {
  }

  /** What a run at a steady price owes in all, in base. */
  function Owed(h: Holdings, long: bool, price: real): real {
    Sum(Values(Debts(h.positions), long, price))
  }

  /** So the run's exposure ends above the plan's target exactly when the last leg was tapered; above the cap of 1.8
      exactly when as many full legs as the plan has borrow more than 0.8 of the capital; and never at the ceiling. */
  lemma RunPassesTarget(dir: Direction, initial: real, marketLTV: real, target: real, minBorrow: real,
                        h: Holdings, reserve: real, first: Fill, es: seq<LegEvent>, price: real)
    requires ValidRequest(dir, initial, marketLTV) && Funded(h, reserve, initial)
    requires price > 0.0 && first.Filled? && first.rate * price == 1.0 && Steady(es, dir == Long, price)
    ensures var p := PlanFor(dir, initial, marketLTV, target, minBorrow);
            var exposure := initial + Owed(Built(h, dir == Long, reserve, p.legLTV, first, es).0, dir == Long, price);
            |es| == |p.legs| ==>
            && (exposure > p.target * initial <==> LastTaper(p) > 0.0)
            && (exposure > MAX_LEVERAGE * initial <==> Reach(p.legLTV, |p.legs|) > MAX_LEVERAGE - 1.0)
            && exposure < initial / (1.0 - p.legLTV)
  {
    hide Borrows, Sum, PlanFor, Built, Full, Values, Worth, Debts, Reach, LastTaper, FullBorrows, Funded, Steady;
    var p := PlanFor(dir, initial, marketLTV, target, minBorrow);
    if |es| == |p.legs| {
      RunReproducesPlan(dir, initial, marketLTV, target, minBorrow, h, reserve, first, es, price);
      TaperPassesTarget(dir, initial, marketLTV, target, minBorrow);
      PlanLTV(dir, initial, marketLTV, target, minBorrow);
      BuiltAtPrice(h, dir == Long, reserve, p.legLTV, first, es, price, initial);
      FullBorrowsSum(p.legLTV, initial, |es|);
      PastCap(initial, Reach(p.legLTV, |es|), initial * Reach(p.legLTV, |es|), MAX_LEVERAGE - 1.0);
    }
  }

  lemma PlanLTV(dir: Direction, initial: real, marketLTV: real, target: real, minBorrow: real)
    requires ValidRequest(dir, initial, marketLTV)
    ensures 0.0 < PlanFor(dir, initial, marketLTV, target, minBorrow).legLTV < 1.0
  {
    hide Borrows, Sum, Legs, PlanFor;
    PlanFields(dir, initial, marketLTV, target, minBorrow);
    RequestIsSized(dir, initial, marketLTV, target, minBorrow);
  }

  lemma PastCap(initial: real, reach: real, owed: real, over: real)
    requires initial > 0.0 && owed == initial * reach && over == MAX_LEVERAGE - 1.0
    ensures initial + owed > MAX_LEVERAGE * initial <==> reach > over
  {
    ScaleLess(over, reach, initial);
  }

  /** The cap binds the plan, not the run: at a market loan-to-value of 0.8 and a capital of at least 100, a plan for
      1.8x tapers its second leg, and every run of it at a steady price reaches 1.96x. */
  lemma RunCanPassTheCap(initial: real, h: Holdings, reserve: real, first: Fill, es: seq<LegEvent>, price: real)
    requires initial >= 100.0 && Funded(h, reserve, initial) && |es| == 2
    requires price > 0.0 && first.Filled? && first.rate * price == 1.0 && Steady(es, true, price)
    ensures var p := PlanFor(Long, initial, 0.8, 1.8, 20.0);
            && p.target == MAX_LEVERAGE && |p.legs| == 2
            && initial + Owed(Built(h, true, reserve, p.legLTV, first, es).0, true, price) == 1.96 * initial
  {
    hide Built, Values, Worth, Debts, Funded, Steady, PlanFor;
    CappedPlan(initial);
    RunReproducesPlan(Long, initial, 0.8, 1.8, 20.0, h, reserve, first, es, price);
  }

  lemma CappedPlan(initial: real)
    requires initial >= 100.0
    ensures var p := PlanFor(Long, initial, 0.8, 1.8, 20.0);
            && p.target == MAX_LEVERAGE && |p.legs| == 2
            && p.totalBorrowed == 0.8 * initial && LastTaper(p) == 0.16 * initial
  {
    hide Borrows, PlanFor, Sum;
    var z := SizingOf(initial, 0.8, 1.8, 20.0);
    CappedSizing(initial);
    PlanFields(Long, initial, 0.8, 1.8, 20.0);
    CappedBorrows(z, initial);
    hide SizingOf, Clamp;
    var z', bs := PlanBorrows(Long, initial, 0.8, 1.8, 20.0);
    assert LastTaper(PlanFor(Long, initial, 0.8, 1.8, 20.0)) == 0.6 * (0.6 * initial) - 0.2 * initial;
  }

  lemma CappedSizing(initial: real)
    requires initial >= 100.0
    ensures var z := SizingOf(initial, 0.8, 1.8, 20.0);
            z.ltv == 0.6 && z.goal == 0.8 * initial && 0.0 < z.slack < 0.1 * initial && z.minBorrow == 20.0
    ensures Clamp(1.8, 0.6) == 1.8
  {
    assert Clamp(1.8, 0.6) == 1.8;
  }

  lemma CappedBorrows(z: Sizing, initial: real)
    requires initial >= 100.0
    requires z.ltv == 0.6 && z.goal == 0.8 * initial && 0.0 < z.slack < 0.1 * initial && z.minBorrow == 20.0
    ensures Borrows(z, initial, 0.0, MAX_LEGS) == [0.6 * initial, 0.2 * initial]
    ensures Sum(Borrows(z, initial, 0.0, MAX_LEGS)) == 0.8 * initial
  {
    hide Borrows, Sum;
    Peel(z, initial, 0.0, MAX_LEGS);
    Peel(z, 0.6 * initial, 0.6 * initial, MAX_LEGS - 1);
    Peel(z, 0.2 * initial, 0.8 * initial, MAX_LEGS - 2);
  }
}
