/** The quote of a position and the monitor that watches it afterwards: both turn the plan's exposure and debt into
    a distance to liquidation, one as a price move, the other as a health factor. */
module QuoteHealth {
  import opened LeveragePlan
  import opened RealArithmetic
  import opened Wrappers

  const MIN_LEG_BORROW: real := 20.0
  const DEFAULT_LTV: real := 0.5
  const DEFAULT_LIQ_THRESHOLD: real := 0.8
  const LIQ_WARN_HEALTH: real := 1.15
  const BASE_FEE: nat := 10_000_000
  const PER_LOOP_FEE: nat := 10_000_000
  const MIN_FEE: nat := 30_000_000
  const PRICE_PROBE: real := 50.0

  datatype Market = Market(ltv: real, minSupply: real, liqThreshold: real)

  datatype Request = Request(direction: Direction, amount: real, leverage: real)

  /** What is said when there is no quote. The least leverage that works reaches the user only as it is printed. */
  datatype Refusal =
    | NoPlan(error: PlanError)
    | TooSmall(fullFirstBorrow: real)
    | LeverageTooLow(minLeverage: real, printed: real)

  datatype Quote = Quote(plan: Plan, loops: nat, txCount: nat, liqMovePct: real, liqThreshold: real,
                         feeReserve: real, totalNeeded: real, noted: bool)

  // ---------- the quote ----------

  function EffectiveLTV(m: Market): (ltv: real)
    ensures 0.0 < ltv < 1.0
  {
    if m.ltv <= 0.0 || m.ltv >= 1.0 then DEFAULT_LTV else m.ltv
  }

  function MinBorrow(m: Market): (least: real)
    ensures least >= MIN_LEG_BORROW && least >= m.minSupply
  {
    if m.minSupply < MIN_LEG_BORROW then MIN_LEG_BORROW else m.minSupply
  }

  /** Lovelace held back for fees. */
  function FeeReserveFor(loops: nat): (fee: nat)
    ensures fee >= MIN_FEE && fee >= BASE_FEE + loops * PER_LOOP_FEE
  {
    var r := BASE_FEE + loops * PER_LOOP_FEE;
    if r < MIN_FEE then MIN_FEE else r
  }

  /** The price, relative to entry, at which the debt is the threshold's share of the collateral. */
  function TripPrice(exposure: real, debt: real, liqThreshold: real): real
    requires exposure > 0.0 && liqThreshold > 0.0
  {
    Scaled(liqThreshold, exposure);
    debt / (liqThreshold * exposure)
  }

  function LiquidationPrice(dir: Direction, exposure: real, debt: real, liqThreshold: real): real {
    if exposure <= 0.0 || liqThreshold <= 0.0 then 0.0
    else if dir == Short then -(TripPrice(exposure, debt, liqThreshold) - 1.0)
    else TripPrice(exposure, debt, liqThreshold) - 1.0
  }

  function RoundEven(y: real): int {
    var whole, rest := y.Floor, y - y.Floor as real;
    if rest < 0.5 || (rest == 0.5 && whole % 2 == 0) then whole else whole + 1
  }

  /** A figure as it is printed: the nearest hundredth, of two equally near the even one. */
  function Printed(x: real): real {
    RoundEven(100.0 * x) as real / 100.0
  }

  function TooLow(minLeverage: real): Refusal {
    LeverageTooLow(minLeverage, Printed(minLeverage))
  }

  /** The plan a request gets on a market. */
  function PlanOn(m: Market, dir: Direction, amount: real, leverage: real): Plan
    requires ValidRequest(dir, amount, EffectiveLTV(m))
  {
    PlanFor(dir, amount, EffectiveLTV(m), leverage, MinBorrow(m))
  }

  function QuoteOf(m: Market, req: Request, plan: Plan): Quote
    requires req.amount > 0.0
  {
    var loops := |plan.legs|;
    var feeReserve := FeeReserveFor(loops) as real / 1000000.0;
    Quote(plan, loops, if req.direction == Long then loops * 2 + 1 else loops * 2,
          LiquidationPrice(req.direction, plan.achieved, plan.totalBorrowed / req.amount, m.liqThreshold) * 100.0,
          m.liqThreshold, feeReserve, req.amount + feeReserve, plan.achieved < req.leverage - 0.001)
  }

  function QuoteFor(m: Market, req: Request): Result<Quote, Refusal>
    requires ValidRequest(req.direction, req.amount, EffectiveLTV(m))
  {
    var plan := PlanOn(m, req.direction, req.amount, req.leverage);
    if plan.legs == [] && plan.target > 1.0 + EPSILON then
      if Full(plan.legLTV, req.amount) < MinBorrow(m) then Err(TooSmall(Full(plan.legLTV, req.amount)))
      else Err(TooLow(1.0 + MinBorrow(m) / req.amount))
    else Ok(QuoteOf(m, req, plan))
  }

  method MakeQuote(m: Market, req: Request) returns (r: Result<Quote, Refusal>)
    ensures req.amount <= 0.0 ==> r == Err(NoPlan(BadInitial))
    ensures req.amount > 0.0 && req.direction.Unknown? ==> r == Err(NoPlan(BadDirection))
    ensures req.amount > 0.0 && !req.direction.Unknown? ==> r == QuoteFor(m, req)
  {
    hide PlanFor, LiquidationPrice, Full, Printed;
    var ltv := m.ltv;
    if ltv <= 0.0 || ltv >= 1.0 { ltv := DEFAULT_LTV; }
    var minBorrow := m.minSupply;
    if minBorrow < MIN_LEG_BORROW { minBorrow := MIN_LEG_BORROW; }
    var built := BuildPlan(req.direction, req.amount, ltv, req.leverage, minBorrow);
    if built.Err? { return Err(NoPlan(built.error)); }
    var plan := built.value;
    var loops := |plan.legs|;
    if loops == 0 && plan.target > 1.0 + EPSILON {
      var fullFirstBorrow := Full(plan.legLTV, req.amount);
      if fullFirstBorrow < minBorrow { return Err(TooSmall(fullFirstBorrow)); }
      return Err(TooLow(1.0 + minBorrow / req.amount));
    }
    var noted := plan.achieved < req.leverage - 0.001;
    var liq := LiquidationPrice(req.direction, plan.achieved, plan.totalBorrowed / req.amount, m.liqThreshold);
    var txc := loops * 2;
    if req.direction == Long { txc := txc + 1; }
    var feeReserve := FeeReserveFor(loops) as real / 1000000.0;
    return Ok(Quote(plan, loops, txc, liq * 100.0, m.liqThreshold, feeReserve, req.amount + feeReserve, noted));
  }

  // ---------- when there is a leg at all ----------

  /** A plan has a leg exactly when the target asks for one and both the full borrow and what the target leaves
      clear the minimum. */
  lemma FirstLeg(dir: Direction, amount: real, marketLTV: real, leverage: real, minBorrow: real)
    requires ValidRequest(dir, amount, marketLTV) && minBorrow > 0.0
    ensures var p := PlanFor(dir, amount, marketLTV, leverage, minBorrow);
            p.legs != [] <==> p.target > 1.0 + EPSILON && p.legLTV * amount >= minBorrow
                              && (p.target - 1.0) * amount >= minBorrow
  {
    hide PlanFor, Borrows, Legs, SizingOf, Clamp, Sum;
    var z := SizingOf(amount, marketLTV, leverage, minBorrow);
    RequestIsSized(dir, amount, marketLTV, leverage, minBorrow);
    PlanFields(dir, amount, marketLTV, leverage, minBorrow);
    Peel(z, amount, 0.0, MAX_LEGS);
    FirstBorrow(z, amount, Clamp(leverage, z.ltv));
  }

  lemma FirstBorrow(z: Sizing, amount: real, target: real)
    requires amount > 0.0 && z.minBorrow > 0.0
    requires z.goal == (target - 1.0) * amount && z.slack == EPSILON * amount
    ensures z.Next(amount, 0.0) != None
            <==> target > 1.0 + EPSILON && z.ltv * amount >= z.minBorrow && (target - 1.0) * amount >= z.minBorrow
  {
    hide Full;
    ScaleLess(EPSILON, target - 1.0, amount);
    FullIs(z.ltv, amount);
    assert 0.0 >= z.goal - z.slack <==> target <= 1.0 + EPSILON;
    FullIs(z.ltv, amount);
    assert z.Next(amount, 0.0) != None
           <==> target > 1.0 + EPSILON && Full(z.ltv, amount) >= z.minBorrow && z.goal >= z.minBorrow;
  }

  /** The clamp keeps order: a higher request never has a lower target. The highest target leaves more than a full
      first borrow. */
  lemma ClampKeepsOrder(a: real, b: real, ltv: real)
    requires 0.0 < ltv < 0.75
    ensures a <= b ==> Clamp(a, ltv) <= Clamp(b, ltv)
    ensures Clamp(a, ltv) <= Clamp(MAX_LEVERAGE, ltv)
    ensures Clamp(MAX_LEVERAGE, ltv) > 1.0 + ltv
    ensures 1.0 <= a <= 1.0 + ltv ==> Clamp(a, ltv) == a
  {
    PastOne(ltv);
  }

  lemma PastOne(ltv: real)
    requires 0.0 < ltv < 1.0
    ensures 1.0 / (1.0 - ltv) > 1.0 + ltv
  {
    InverseOver(ltv, 1.0 - ltv);
  }

  lemma InverseOver(x: real, w: real)
    requires x > 0.0 && 0.0 < w && w + x <= 1.0
    ensures 1.0 + x < 1.0 / w
  {
    var a, c := 1.0 + x, w + x;
    OverUnit(a, x, w);
    UnderInverse(a, w, c);
  }

  lemma OverUnit(a: real, x: real, w: real)
    requires x > 0.0 && w < 1.0 && a == 1.0 + x
    ensures a * w < w + x
  {
    ScaleLess(w, 1.0, x);
  }

  /** At some leverage there is a leg exactly when a full first borrow clears the minimum, and then the highest
      target has one, if it asks for a leg. */
  lemma SomeLeverageLegs(m: Market, dir: Direction, amount: real, leverage: real)
    requires ValidRequest(dir, amount, EffectiveLTV(m))
    ensures PlanOn(m, dir, amount, leverage).legs != [] ==>
              PlanOn(m, dir, amount, leverage).legLTV * amount >= MinBorrow(m)
    ensures PlanOn(m, dir, amount, leverage).legLTV * amount >= MinBorrow(m)
            && PlanOn(m, dir, amount, leverage).target > 1.0 + EPSILON ==>
              PlanOn(m, dir, amount, MAX_LEVERAGE).legs != []
  {
    hide PlanFor, Clamp;
    var mltv, least := EffectiveLTV(m), MinBorrow(m);
    var ltv := 0.75 * mltv;
    FirstLeg(dir, amount, mltv, leverage, least);
    FirstLeg(dir, amount, mltv, MAX_LEVERAGE, least);
    PlanTarget(dir, amount, mltv, leverage, least);
    PlanTarget(dir, amount, mltv, MAX_LEVERAGE, least);
    ClampKeepsOrder(leverage, MAX_LEVERAGE, ltv);
    Times(ltv, Clamp(MAX_LEVERAGE, ltv) - 1.0, amount);
  }

  lemma PlanTarget(dir: Direction, amount: real, marketLTV: real, leverage: real, minBorrow: real)
    requires ValidRequest(dir, amount, marketLTV)
    ensures var p := PlanFor(dir, amount, marketLTV, leverage, minBorrow);
            p.legLTV == 0.75 * marketLTV && p.target == Clamp(leverage, 0.75 * marketLTV) && p.initial == amount
  {
    hide PlanFor, SizingOf, Clamp;
    PlanFields(dir, amount, marketLTV, leverage, minBorrow);
    RequestIsSized(dir, amount, marketLTV, leverage, minBorrow);
  }

  /** "Position too small" is said exactly when some leverage was asked for and none would yield a leg. */
  lemma TooSmallIsExact(m: Market, req: Request)
    requires ValidRequest(req.direction, req.amount, EffectiveLTV(m))
    ensures var r := QuoteFor(m, req);
            r.Err? && r.error.TooSmall? <==>
              PlanOn(m, req.direction, req.amount, req.leverage).target > 1.0 + EPSILON
              && forall leverage :: PlanOn(m, req.direction, req.amount, leverage).legs == []
  {
    hide PlanOn, LiquidationPrice;
    forall leverage
      ensures PlanOn(m, req.direction, req.amount, leverage).legs != [] ==>
                PlanOn(m, req.direction, req.amount, leverage).legLTV * req.amount >= MinBorrow(m)
    {
      SomeLeverageLegs(m, req.direction, req.amount, leverage);
    }
    SomeLeverageLegs(m, req.direction, req.amount, req.leverage);
    forall leverage
      ensures PlanOn(m, req.direction, req.amount, leverage).legLTV == 0.75 * EffectiveLTV(m)
    {
      SameLTV(m, req.direction, req.amount, leverage);
    }
  }

  lemma SameLTV(m: Market, dir: Direction, amount: real, leverage: real)
    requires ValidRequest(dir, amount, EffectiveLTV(m))
    ensures PlanOn(m, dir, amount, leverage).legLTV == 0.75 * EffectiveLTV(m)
  {
    hide PlanFor;
    PlanTarget(dir, amount, EffectiveLTV(m), leverage, MinBorrow(m));
  }

  /** The figure behind "leverage too low" is the least leverage that works: it lies under the cap and the
      loan-to-value ceiling, a plan has a leg exactly from there on, and the request was below it. */
  lemma AdviceWorks(m: Market, req: Request, leverage: real)
    requires ValidRequest(req.direction, req.amount, EffectiveLTV(m))
    ensures var r := QuoteFor(m, req);
            r.Err? && r.error.LeverageTooLow? ==>
              var least := r.error.minLeverage;
              && 1.0 < least < MAX_LEVERAGE && least < 1.0 / (1.0 - 0.75 * EffectiveLTV(m)) && req.leverage < least
              && (PlanOn(m, req.direction, req.amount, leverage).legs != [] <==> leverage >= least)
  {
    hide PlanFor, Clamp, LiquidationPrice, Printed;
    var amount, mltv, minBorrow := req.amount, EffectiveLTV(m), MinBorrow(m);
    var ltv := 0.75 * mltv;
    var share := minBorrow / amount;
    FirstLeg(req.direction, amount, mltv, req.leverage, minBorrow);
    PlanTarget(req.direction, amount, mltv, req.leverage, minBorrow);
    FirstLeg(req.direction, amount, mltv, leverage, minBorrow);
    PlanTarget(req.direction, amount, mltv, leverage, minBorrow);
    PastOne(ltv);
    AskedTooLittle(ltv, amount, minBorrow, share, req.leverage);
    Asked(ltv, amount, minBorrow, share, leverage);
  }

  /** Printing a figure in hundredths loses a part of it. */
  predicate RoundsDown(hundredths: real) {
    var whole, rest := hundredths.Floor, hundredths - hundredths.Floor as real;
    0.0 < rest < 0.5 || (rest == 0.5 && whole % 2 == 0)
  }

  /** A leverage of `1 + share` is printed as less than it is exactly when its share's hundredths are rounded down. */
  lemma PrintedAtLeast(least: real, share: real, hundredths: real)
    requires least == 1.0 + share && hundredths == 100.0 * share
    ensures Printed(least) >= least <==> !RoundsDown(hundredths)
  {
    var y := 100.0 * least;
    assert y == hundredths + 100.0;
    assert y.Floor == hundredths.Floor + 100;
  }

  /** The advice as printed: a request at the printed figure has a leg exactly when the hundredths of the minimum
      borrow over the capital were not rounded down. */
  lemma PrintedAdviceWorks(m: Market, req: Request)
    requires ValidRequest(req.direction, req.amount, EffectiveLTV(m))
    ensures var r := QuoteFor(m, req);
            r.Err? && r.error.LeverageTooLow? ==>
              (PlanOn(m, req.direction, req.amount, r.error.printed).legs != []
               <==> !RoundsDown(100.0 * (MinBorrow(m) / req.amount)))
  {
    hide PlanFor, Clamp, LiquidationPrice, PlanOn, Printed, RoundsDown, EffectiveLTV, MinBorrow;
    var r := QuoteFor(m, req);
    if r.Err? && r.error.LeverageTooLow? {
      var share := MinBorrow(m) / req.amount;
      AdviceWorks(m, req, r.error.printed);
      PrintedAtLeast(r.error.minLeverage, share, 100.0 * share);
    }
  }

  /** It can fail: at 380 of capital and a market loan-to-value of one half the least leverage is 1.0526 and more, the
      user is told to ask for at least 1.05, and at 1.05 there is no leg. */
  lemma PrintedAdviceCanFail()
    ensures var m, req := Market(0.5, 0.0, 0.6), Request(Long, 380.0, 1.02);
            && QuoteFor(m, req) == Err(TooLow(1.0 + 20.0 / 380.0)) && Printed(1.0 + 20.0 / 380.0) == 1.05
            && PlanOn(m, Long, 380.0, 1.05).legs == []
  {
    hide PlanFor, LiquidationPrice;
    FirstLeg(Long, 380.0, 0.5, 1.02, 20.0);
    FirstLeg(Long, 380.0, 0.5, 1.05, 20.0);
    PlanTarget(Long, 380.0, 0.5, 1.02, 20.0);
    PlanTarget(Long, 380.0, 0.5, 1.05, 20.0);
    ClampKeepsOrder(1.02, 1.02, 0.375);
    ClampKeepsOrder(1.05, 1.05, 0.375);
    assert (100.0 * (1.0 + 20.0 / 380.0)).Floor == 105;
  }

  /** Against a full borrow that clears the minimum, a request asks for enough exactly from `1 + share` on. */
  lemma Asked(ltv: real, amount: real, minBorrow: real, share: real, leverage: real)
    requires 0.0 < ltv < 0.75 && amount > 0.0 && minBorrow > 0.0 && share == minBorrow / amount
    ensures ltv * amount >= minBorrow ==>
              && 0.0 < share <= ltv
              && ((Clamp(leverage, ltv) - 1.0) * amount >= minBorrow <==> leverage >= 1.0 + share)
              && (leverage >= 1.0 + share ==> Clamp(leverage, ltv) >= 1.0 + share)
  {
    hide Clamp;
    assert share * amount == minBorrow;
    ScaleLess(0.0, share, amount);
    ScaleLess(ltv, share, amount);
    ScaleLess(Clamp(leverage, ltv) - 1.0, share, amount);
    ClampAt(leverage, ltv, share);
  }

  lemma ClampAt(leverage: real, ltv: real, share: real)
    requires 0.0 < ltv < 0.75 && 0.0 < share
    ensures share <= ltv ==> (Clamp(leverage, ltv) >= 1.0 + share <==> leverage >= 1.0 + share)
  {
    PastOne(ltv);
  }

  lemma AskedTooLittle(ltv: real, amount: real, minBorrow: real, share: real, leverage: real)
    requires 0.0 < ltv < 0.75 && amount > 0.0 && minBorrow > 0.0 && share == minBorrow / amount
    ensures (Clamp(leverage, ltv) > 1.0 + EPSILON && ltv * amount >= minBorrow
             && (Clamp(leverage, ltv) - 1.0) * amount < minBorrow) ==> share > EPSILON && leverage < 1.0 + share
  {
    hide Clamp;
    assert share * amount == minBorrow;
    Asked(ltv, amount, minBorrow, share, leverage);
    ScaleLess(Clamp(leverage, ltv) - 1.0, share, amount);
  }

  // ---------- the monitor ----------

  /** None stands for infinite health: nothing is owed. */
  function HealthFactor(collateral: real, debt: real, liqThreshold: real): Option<real> {
    if debt <= 0.0 then None else Some((collateral * liqThreshold) / debt)
  }

  function Threshold(liqThreshold: real): (t: real)
    ensures t > 0.0
  {
    if liqThreshold <= 0.0 then DEFAULT_LIQ_THRESHOLD else liqThreshold
  }

  function EntryHealth(exposure: real, debt: real, threshold: real): real
    requires debt > 0.0
  {
    threshold * exposure / debt
  }

  /** Health after the target's price moved from entry to `ratio` times it: a long's collateral moves with the
      price, a short's debt does. */
  function HealthAt(dir: Direction, exposure: real, debt: real, threshold: real, ratio: real): real
    requires debt > 0.0 && ratio > 0.0
  {
    if dir == Long then EntryHealth(exposure, debt, threshold) * ratio
    else EntryHealth(exposure, debt, threshold) / ratio
  }

  function PnlPct(dir: Direction, exposure: real, initial: real, ratio: real): real
    requires initial > 0.0
  {
    if dir == Long then (ratio - 1.0) * (exposure / initial) * 100.0
    else (1.0 - ratio) * (exposure / initial) * 100.0
  }

  datatype ProbeError = ProbeFailed | ZeroOutput

  /** Price of the target in the base asset, from how much of it the probe amount buys. */
  function PriceOf(isBase: bool, probe: Result<real, ProbeError>): (price: Result<real, ProbeError>)
    ensures price.Ok? ==> price.value > 0.0
    ensures price.Ok? && !isBase ==> probe.Ok? && price.value * probe.value == 50.0
    ensures !isBase && probe.Err? ==> price == probe
    ensures !isBase && probe.Ok? ==> (price == Err(ZeroOutput) <==> probe.value <= 0.0)
    ensures price.Err? ==> !isBase && (probe.Err? || probe.value <= 0.0)
    ensures isBase ==> price == Ok(1.0)
  {
    if isBase then Ok(1.0)
    else if probe.Err? then probe
    else if probe.value <= 0.0 then Err(ZeroOutput)
    else
      var price := PRICE_PROBE / probe.value;
      ScaleLess(0.0, price, probe.value);
      Ok(price)
  }

  datatype Refreshed = Skipped | NoPrice(error: ProbeError) | Unsaved | Updated(warned: bool)

  class Position {
    var direction: Direction
    var plan: Option<Plan>
    var initial: real
    var isBase: bool
    var entryPrice: real
    var liqThreshold: real
    var currentPrice: real
    var health: real
    var pnlPct: real

    predicate Valid()
      reads this
    {
      plan.Some? ==> initial > 0.0
    }

    predicate Tracked()
      reads this
    {
      plan.Some? && plan.value.totalBorrowed > 0.0 && entryPrice > 0.0
    }

    /** One poll. The fields are set before the save, so they hold the new values even where it fails. */
    method RefreshHealth(probe: Result<real, ProbeError>, saves: bool) returns (r: Refreshed)
      requires Valid()
      modifies this`currentPrice, this`health, this`pnlPct
      ensures r == Skipped <==> !Tracked()
      ensures r.NoPrice? <==> Tracked() && PriceOf(isBase, probe).Err?
      ensures r.Skipped? || r.NoPrice? ==>
                currentPrice == old(currentPrice) && health == old(health) && pnlPct == old(pnlPct)
      ensures r.Unsaved? || r.Updated? ==>
                && Tracked() && PriceOf(isBase, probe) == Ok(currentPrice) && (r.Updated? <==> saves)
                && var ratio := currentPrice / entryPrice;
                && ratio > 0.0
                && health == HealthAt(direction, plan.value.totalExposure, plan.value.totalBorrowed,
                                      Threshold(liqThreshold), ratio)
                && pnlPct == PnlPct(direction, plan.value.totalExposure, initial, ratio)
      ensures r.Updated? ==> (r.warned <==> health <= 1.15)
    {
      hide EntryHealth;
      if plan.None? || plan.value.totalBorrowed <= 0.0 || entryPrice <= 0.0 { return Skipped; }
      var price := PriceOf(isBase, probe);
      if price.Err? { return NoPrice(price.error); }
      var ratio := price.value / entryPrice;
      RatioPositive(price.value, entryPrice, ratio);
      var liqT := liqThreshold;
      if liqT <= 0.0 { liqT := DEFAULT_LIQ_THRESHOLD; }
      var entryHealth := EntryHealth(plan.value.totalExposure, plan.value.totalBorrowed, liqT);
      var h, pnl;
      if direction == Long {
        h := entryHealth * ratio;
        pnl := (ratio - 1.0) * (plan.value.totalExposure / initial) * 100.0;
      } else {
        h := entryHealth / ratio;
        pnl := (1.0 - ratio) * (plan.value.totalExposure / initial) * 100.0;
      }
      currentPrice, health, pnlPct := price.value, h, pnl;
      if !saves { return Unsaved; }
      return Updated(h <= LIQ_WARN_HEALTH);
    }
  }

  lemma RatioPositive(price: real, entry: real, ratio: real)
    requires price > 0.0 && entry > 0.0 && ratio == price / entry
    ensures ratio > 0.0
  {
    assert ratio * entry == price;
    ScaleLess(0.0, ratio, entry);
  }

  // ---------- the monitor's formula ----------

  /** Health is the health factor of the position at today's price: of its collateral revalued where it is long, of
      its debt revalued where it is short. */
  lemma HealthIsRevalued(dir: Direction, exposure: real, debt: real, threshold: real, ratio: real)
    requires debt > 0.0 && ratio > 0.0
    ensures var (collateral, owed) := if dir == Long then (exposure * ratio, debt) else (exposure, debt * ratio);
            && HealthFactor(collateral, owed, threshold).Some?
            && HealthFactor(collateral, owed, threshold).value == HealthAt(dir, exposure, debt, threshold, ratio)
  {
    hide HealthFactor, EntryHealth;
    if dir == Long {
      var collateral := exposure * ratio;
      RevaluedCollateral(exposure, debt, threshold, ratio, collateral);
    } else {
      var owed := debt * ratio;
      RevaluedDebt(exposure, debt, threshold, ratio, owed);
    }
  }

  lemma RevaluedCollateral(exposure: real, debt: real, t: real, ratio: real, collateral: real)
    requires debt > 0.0 && collateral == exposure * ratio
    ensures HealthFactor(collateral, debt, t).Some?
            && HealthFactor(collateral, debt, t).value == EntryHealth(exposure, debt, t) * ratio
  {
    hide HealthFactor, EntryHealth;
    FactorIs(collateral, debt, t);
    EntryIs(exposure, debt, t);
    var h, entry := HealthFactor(collateral, debt, t).value, EntryHealth(exposure, debt, t);
    var health := entry * ratio;
    SameShare(h, debt, collateral, t, exposure, ratio, entry, health);
  }

  lemma FactorIs(collateral: real, debt: real, t: real)
    requires debt > 0.0
    ensures HealthFactor(collateral, debt, t).Some? && HealthFactor(collateral, debt, t).value * debt == collateral * t
  {
  }

  lemma EntryIs(exposure: real, debt: real, t: real)
    requires debt > 0.0
    ensures EntryHealth(exposure, debt, t) * debt == t * exposure
  {
  }

  lemma SameShare(h: real, debt: real, collateral: real, t: real, exposure: real, ratio: real, entry: real,
                  health: real)
    requires debt > 0.0 && collateral == exposure * ratio && health == entry * ratio
    requires h * debt == collateral * t && entry * debt == t * exposure
    ensures h == health
  {
    Same(t, collateral, exposure * ratio);
    Same(ratio, entry * debt, t * exposure);
    Same(debt, health, entry * ratio);
    EqualBy(h, health, debt);
  }

  lemma RevaluedDebt(exposure: real, debt: real, t: real, ratio: real, owed: real)
    requires debt > 0.0 && ratio > 0.0 && owed == debt * ratio
    ensures HealthFactor(exposure, owed, t).Some?
            && HealthFactor(exposure, owed, t).value == EntryHealth(exposure, debt, t) / ratio
  {
    Scaled(debt, ratio);
    var h, entry := (exposure * t) / owed, EntryHealth(exposure, debt, t);
    var health := entry / ratio;
    assert h * owed == exposure * t;
    assert entry * debt == t * exposure;
    assert health * ratio == entry;
    Same(debt, entry, health * ratio);
    Same(health, owed, debt * ratio);
    EqualBy(h, health, owed);
  }

  /** A position enters above the threshold over the legs' loan-to-value: above 4/3, and so above the warning line,
      where the threshold is at least the market's loan-to-value, and above 1 where none is reported. */
  lemma EntryIsSafe(dir: Direction, amount: real, marketLTV: real, leverage: real, minBorrow: real, liqThreshold: real)
    requires ValidRequest(dir, amount, marketLTV)
    ensures var p := PlanFor(dir, amount, marketLTV, leverage, minBorrow);
            p.totalBorrowed > 0.0 ==>
              var health := EntryHealth(p.totalExposure, p.totalBorrowed, Threshold(liqThreshold));
              && health > Threshold(liqThreshold) / (0.75 * marketLTV)
              && (liqThreshold >= marketLTV ==> health > 4.0 / 3.0 > LIQ_WARN_HEALTH)
              && (liqThreshold <= 0.0 ==> health > 1.0)
  {
    hide PlanFor, Clamp, LastHeld, EntryHealth;
    var p := PlanFor(dir, amount, marketLTV, leverage, minBorrow);
    PlansAreBounded(dir, amount, marketLTV, leverage, minBorrow);
    PlanTarget(dir, amount, marketLTV, leverage, minBorrow);
    if p.totalBorrowed > 0.0 {
      var t, ltv := Threshold(liqThreshold), 0.75 * marketLTV;
      DebtUnder(ltv, p.totalExposure, LastHeld(p), p.totalExposure - LastHeld(p));
      EntryOver(t, p.totalExposure, p.totalBorrowed, ltv, ltv * p.totalExposure);
      ShareOver(t, marketLTV);
    }
  }

  lemma DebtUnder(ltv: real, exposure: real, last: real, supplied: real)
    requires ltv > 0.0 && last > 0.0 && supplied == exposure - last
    ensures ltv * supplied < ltv * exposure
  {
    Scaled(ltv, last);
  }

  lemma EntryOver(t: real, exposure: real, debt: real, ltv: real, most: real)
    requires t > 0.0 && ltv > 0.0 && 0.0 < debt < most == ltv * exposure
    ensures EntryHealth(exposure, debt, t) > t / ltv
  {
    var a, h := t / ltv, EntryHealth(exposure, debt, t);
    assert a * ltv == t;
    assert h * debt == t * exposure;
    ScaleLess(0.0, a, ltv);
    ScaleLess(debt, most, a);
    OfMost(a, ltv, exposure, t, most);
    Under(a, h, debt, t * exposure);
  }

  lemma OfMost(a: real, ltv: real, exposure: real, t: real, most: real)
    requires most == ltv * exposure && a * ltv == t
    ensures most * a == t * exposure
  {
    Same(exposure, t, a * ltv);
    Same(a, most, ltv * exposure);
  }

  lemma ShareOver(t: real, marketLTV: real)
    requires t > 0.0 && 0.0 < marketLTV < 1.0
    ensures t >= marketLTV ==> t / (0.75 * marketLTV) >= 4.0 / 3.0
    ensures t == 0.8 ==> t / (0.75 * marketLTV) > 1.0
  {
    var ltv := 0.75 * marketLTV;
    var a := t / ltv;
    assert a * ltv == t;
    ScaleLess(a, 4.0 / 3.0, ltv);
    ScaleLess(1.0, a, ltv);
  }

  // ---------- the quoted move and the monitor ----------

  /** The quoted trip price is the inverse of the entry health. */
  lemma TripIsInverse(achieved: real, initial: real, share: real, exposure: real, debt: real, t: real)
    requires achieved >= 1.0 && initial > 0.0 && t > 0.0 && debt > 0.0
    requires share == debt / initial && exposure == achieved * initial
    ensures var trip, entry := TripPrice(achieved, share, t), EntryHealth(exposure, debt, t);
            trip > 0.0 && entry > 0.0 && entry * trip == 1.0
    ensures EntryHealth(exposure, debt, t) == 1.0 <==> debt == t * exposure
  {
    var trip, entry := TripPrice(achieved, share, t), EntryHealth(exposure, debt, t);
    var scale := t * achieved;
    Scaled(t, achieved);
    assert trip * scale == share;
    assert share * initial == debt;
    assert entry * debt == t * exposure;
    Scaled(achieved, initial);
    Scaled(t, exposure);
    ScaleLess(0.0, share, initial);
    ScaleLess(0.0, trip, scale);
    ScaleLess(0.0, entry, debt);
    Inverse(trip, entry, scale, share, initial, debt, t, achieved, exposure);
    Unit(entry, debt, t * exposure);
  }

  lemma Unit(entry: real, debt: real, x: real)
    requires debt > 0.0 && entry * debt == x
    ensures entry == 1.0 <==> debt == x
  {
    if debt == x {
      EqualBy(entry, 1.0, debt);
    }
  }

  lemma Inverse(trip: real, entry: real, scale: real, share: real, initial: real, debt: real, t: real, achieved: real,
                exposure: real)
    requires debt > 0.0 && scale == t * achieved && trip * scale == share && share * initial == debt
    requires exposure == achieved * initial && entry * debt == t * exposure
    ensures entry * trip == 1.0
  {
    Same(t, exposure, achieved * initial);
    Same(initial, scale, t * achieved);
    assert entry * debt == scale * initial;
    Same(initial, share, trip * scale);
    Same(trip, entry * debt, scale * initial);
    var product := entry * trip;
    assert product * debt == trip * (entry * debt);
    EqualBy(product, 1.0, debt);
  }

  lemma LongTrips(entry: real, trip: real, ratio: real)
    requires entry > 0.0 && entry * trip == 1.0
    ensures entry * ratio <= 1.0 <==> ratio <= trip
  {
    ScaleLess(trip, ratio, entry);
  }

  lemma ShortTrips(entry: real, ratio: real)
    requires ratio > 0.0
    ensures entry / ratio <= 1.0 <==> entry <= ratio
  {
    var h := entry / ratio;
    assert h * ratio == entry;
    ScaleLess(1.0, h, ratio);
  }

  lemma SumWithInverse(entry: real, trip: real)
    requires entry > 0.0 && trip > 0.0 && entry * trip == 1.0
    ensures entry + trip >= 2.0
    ensures entry + trip == 2.0 <==> entry == 1.0
    ensures entry == 1.0 <==> trip == 1.0
  {
    var gap, same := entry - 1.0, entry - 1.0;
    var square := gap * same;
    Square(gap, same, square);
    Expand(entry, trip, gap, same, square);
    ScaleLess(0.0, square, trip);
    Unit(entry, trip, 1.0);
  }

  lemma Square(x: real, y: real, square: real)
    requires x == y && square == x * y
    ensures square >= 0.0 && (x != 0.0 ==> square > 0.0)
  {
    if x > 0.0 {
      Scaled(x, y);
    } else if x < 0.0 {
      var up, down := -x, -y;
      Scaled(up, down);
      BothNegated(x, y, up, down);
    }
  }

  lemma BothNegated(x: real, y: real, up: real, down: real)
    requires up == -x && down == -y
    ensures up * down == x * y
  {
  }

  lemma Expand(entry: real, trip: real, gap: real, same: real, square: real)
    requires entry * trip == 1.0 && gap == entry - 1.0 && same == entry - 1.0 && square == gap * same
    ensures square * trip == entry - 2.0 + trip
  {
    Same(entry, entry * trip, 1.0);
  }

  /** Every quote of a position with debt carries a plan the bounds above hold of. */
  lemma QuotedPlan(m: Market, req: Request, q: Quote)
    requires ValidRequest(req.direction, req.amount, EffectiveLTV(m))
    ensures QuoteFor(m, req) == Ok(q) ==>
              && q.plan == PlanOn(m, req.direction, req.amount, req.leverage) && q.liqThreshold == m.liqThreshold
              && q.plan.achieved >= 1.0 && q.plan.totalExposure == q.plan.achieved * req.amount
              && q.liqMovePct / 100.0 == LiquidationPrice(req.direction, q.plan.achieved,
                                                          q.plan.totalBorrowed / req.amount, m.liqThreshold)
  {
    hide PlanFor, LiquidationPrice, LastHeld;
    PlansAreBounded(req.direction, req.amount, EffectiveLTV(m), req.leverage, MinBorrow(m));
    PlanTarget(req.direction, req.amount, EffectiveLTV(m), req.leverage, MinBorrow(m));
  }

  /** What the monitor calls liquidatable, `ratio` times the entry price. */
  predicate Liquidatable(q: Quote, dir: Direction, ratio: real)
    requires q.plan.totalBorrowed > 0.0 && ratio > 0.0
  {
    HealthAt(dir, q.plan.totalExposure, q.plan.totalBorrowed, Threshold(q.liqThreshold), ratio) <= 1.0
  }

  /** What the quote calls liquidatable. */
  predicate QuotedLiquidatable(q: Quote, dir: Direction, ratio: real) {
    if dir == Long then ratio - 1.0 <= q.liqMovePct / 100.0 else ratio - 1.0 >= q.liqMovePct / 100.0
  }

  /** A quote of a position that owes something. */
  predicate Quoted(m: Market, req: Request, q: Quote)
    requires ValidRequest(req.direction, req.amount, EffectiveLTV(m))
  {
    QuoteFor(m, req) == Ok(q) && q.plan.totalBorrowed > 0.0
  }

  lemma LiquidatableIs(q: Quote, dir: Direction, ratio: real, entry: real)
    requires q.plan.totalBorrowed > 0.0 && ratio > 0.0
    requires entry == EntryHealth(q.plan.totalExposure, q.plan.totalBorrowed, Threshold(q.liqThreshold))
    ensures Liquidatable(q, dir, ratio) <==> if dir == Long then entry * ratio <= 1.0 else entry <= ratio
  {
    hide EntryHealth;
    ShortTrips(entry, ratio);
  }

  lemma MoveIs(dir: Direction, achieved: real, share: real, liqThreshold: real)
    requires achieved >= 1.0
    ensures var move := LiquidationPrice(dir, achieved, share, liqThreshold);
            if liqThreshold <= 0.0 then move == 0.0
            else move == if dir == Short then 1.0 - TripPrice(achieved, share, liqThreshold)
                         else TripPrice(achieved, share, liqThreshold) - 1.0
  {
    hide TripPrice;
  }

  /** The monitor's view of a quote at a price, in terms of its entry health and, with a threshold reported, of
      the trip price behind the quoted move. */
  lemma BothViews(m: Market, req: Request, q: Quote, ratio: real) returns (entry: real, trip: real)
    requires ValidRequest(req.direction, req.amount, EffectiveLTV(m)) && ratio > 0.0
    ensures Quoted(m, req, q) ==>
              && entry == EntryHealth(q.plan.totalExposure, q.plan.totalBorrowed, Threshold(m.liqThreshold)) > 0.0
              && q.liqThreshold == m.liqThreshold
              && (Liquidatable(q, req.direction, ratio)
                  <==> if req.direction == Long then entry * ratio <= 1.0 else entry <= ratio)
              && (m.liqThreshold > 0.0 ==>
                    && trip > 0.0 && entry * trip == 1.0
                    && (entry == 1.0 <==> q.plan.totalBorrowed == m.liqThreshold * q.plan.totalExposure)
                    && q.liqMovePct / 100.0 == if req.direction == Short then 1.0 - trip else trip - 1.0)
              && (m.liqThreshold <= 0.0 ==> q.liqMovePct == 0.0 && entry > 1.0)
  {
    hide PlanFor, EntryHealth, TripPrice, LastHeld, QuoteFor, QuoteOf, EffectiveLTV, MinBorrow;
    hide LiquidationPrice, Liquidatable, HealthAt;
    entry, trip := 0.0, 0.0;
    if Quoted(m, req, q) {
      QuotedPlan(m, req, q);
      var t := Threshold(m.liqThreshold);
      var share := q.plan.totalBorrowed / req.amount;
      entry := EntryHealth(q.plan.totalExposure, q.plan.totalBorrowed, t);
      trip := TripPrice(q.plan.achieved, share, t);
      TripIsInverse(q.plan.achieved, req.amount, share, q.plan.totalExposure, q.plan.totalBorrowed, t);
      LiquidatableIs(q, req.direction, ratio, entry);
      MoveIs(req.direction, q.plan.achieved, share, m.liqThreshold);
      EntryIsSafe(req.direction, req.amount, EffectiveLTV(m), req.leverage, MinBorrow(m), m.liqThreshold);
    }
  }

  predicate AgreeAt(q: Quote, dir: Direction, ratio: real)
    requires q.plan.totalBorrowed > 0.0 && ratio > 0.0
  {
    Liquidatable(q, dir, ratio) <==> QuotedLiquidatable(q, dir, ratio)
  }

  /** For a long, quote and monitor agree at every price exactly when the market reports a threshold: without one
      the quote says the entry price itself liquidates, and the monitor assumes 0.8. */
  lemma LongsAgree(m: Market, req: Request, q: Quote)
    requires ValidRequest(req.direction, req.amount, EffectiveLTV(m)) && req.direction == Long
    ensures Quoted(m, req, q) ==>
              ((forall ratio | ratio > 0.0 :: AgreeAt(q, Long, ratio)) <==> m.liqThreshold > 0.0)
  {
    hide Liquidatable, Quoted, EffectiveLTV;
    if Quoted(m, req, q) {
      OwesSomething(m, req, q);
      if m.liqThreshold > 0.0 {
        forall ratio | ratio > 0.0
          ensures AgreeAt(q, Long, ratio)
        {
          var entry, trip := BothViews(m, req, q, ratio);
          LongTrips(entry, trip, ratio);
        }
      } else {
        var entry, trip := BothViews(m, req, q, 1.0);
        assert !AgreeAt(q, Long, 1.0);
      }
    }
  }

  lemma OwesSomething(m: Market, req: Request, q: Quote)
    requires ValidRequest(req.direction, req.amount, EffectiveLTV(m))
    ensures Quoted(m, req, q) ==> q.plan.totalBorrowed > 0.0
  {
    hide QuoteFor;
  }

  /** For a short, no rise below the quoted one liquidates. The quote understates the rise that does, unless the
      debt already is the threshold's share of the exposure: only then do the two agree at every price. */
  lemma ShortsAreQuotedEarly(m: Market, req: Request, q: Quote)
    requires ValidRequest(req.direction, req.amount, EffectiveLTV(m)) && req.direction == Short
    ensures Quoted(m, req, q) ==>
              && (forall ratio | ratio > 0.0 :: Liquidatable(q, Short, ratio) ==> QuotedLiquidatable(q, Short, ratio))
              && ((forall ratio | ratio > 0.0 :: AgreeAt(q, Short, ratio))
                  <==> m.liqThreshold > 0.0 && q.plan.totalBorrowed == m.liqThreshold * q.plan.totalExposure)
  {
    hide Liquidatable, Quoted, EffectiveLTV, EntryHealth;
    if Quoted(m, req, q) {
      OwesSomething(m, req, q);
      forall ratio | ratio > 0.0
        ensures Liquidatable(q, Short, ratio) ==> QuotedLiquidatable(q, Short, ratio)
        ensures m.liqThreshold > 0.0 && q.plan.totalBorrowed == m.liqThreshold * q.plan.totalExposure ==>
                  AgreeAt(q, Short, ratio)
      {
        var entry, trip := BothViews(m, req, q, ratio);
        if m.liqThreshold > 0.0 {
          SumWithInverse(entry, trip);
        }
      }
      var entry, trip := BothViews(m, req, q, 1.0);
      if m.liqThreshold > 0.0 && entry != 1.0 {
        SumWithInverse(entry, trip);
        var between := if trip < 2.0 then 2.0 - trip else entry / 2.0;
        var entry', trip' := BothViews(m, req, q, between);
        assert !AgreeAt(q, Short, between);
      } else if m.liqThreshold <= 0.0 {
        assert !AgreeAt(q, Short, 1.0);
      }
    }
  }

  /** Where quote and monitor of a short differ: exactly at the prices from the quoted rise up to the entry health. */
  lemma ShortsDifferBetween(m: Market, req: Request, q: Quote, ratio: real)
    requires ValidRequest(req.direction, req.amount, EffectiveLTV(m)) && req.direction == Short && ratio > 0.0
    ensures Quoted(m, req, q) ==>
              var entry := EntryHealth(q.plan.totalExposure, q.plan.totalBorrowed, Threshold(m.liqThreshold));
              AgreeAt(q, Short, ratio) <==> !(1.0 + q.liqMovePct / 100.0 <= ratio < entry)
  {
    hide Liquidatable, Quoted, EffectiveLTV, EntryHealth;
    if Quoted(m, req, q) {
      OwesSomething(m, req, q);
      var entry, trip := BothViews(m, req, q, ratio);
      if m.liqThreshold > 0.0 {
        SumWithInverse(entry, trip);
      }
    }
  }

  /** There always are such prices in a market whose threshold is at least the legs' loan-to-value, or that reports
      none: no short that owes anything is quoted the rise that liquidates it. */
  lemma ShortsNeverAgree(m: Market, req: Request, q: Quote)
    requires ValidRequest(req.direction, req.amount, EffectiveLTV(m)) && req.direction == Short
    requires m.liqThreshold >= 0.75 * EffectiveLTV(m) || m.liqThreshold <= 0.0
    ensures Quoted(m, req, q) ==>
              var entry := EntryHealth(q.plan.totalExposure, q.plan.totalBorrowed, Threshold(m.liqThreshold));
              entry > 1.0 && 1.0 + q.liqMovePct / 100.0 < entry
  {
    hide Liquidatable, Quoted, EffectiveLTV, EntryHealth;
    if Quoted(m, req, q) {
      OwesSomething(m, req, q);
      var entry, trip := BothViews(m, req, q, 1.0);
      if m.liqThreshold > 0.0 {
        QuotedHealth(m, req, q);
        SumWithInverse(entry, trip);
      }
    }
  }

  lemma QuotedHealth(m: Market, req: Request, q: Quote)
    requires ValidRequest(req.direction, req.amount, EffectiveLTV(m))
    requires m.liqThreshold > 0.0 && m.liqThreshold >= 0.75 * EffectiveLTV(m)
    ensures Quoted(m, req, q) ==> EntryHealth(q.plan.totalExposure, q.plan.totalBorrowed, m.liqThreshold) > 1.0
  {
    hide PlanFor, LiquidationPrice, EntryHealth, EffectiveLTV, MinBorrow;
    var mltv := EffectiveLTV(m);
    EntryIsSafe(req.direction, req.amount, mltv, req.leverage, MinBorrow(m), m.liqThreshold);
    OverUnitShare(m.liqThreshold, 0.75 * mltv);
  }

  lemma OverUnitShare(t: real, ltv: real)
    requires t >= ltv > 0.0
    ensures t / ltv >= 1.0
  {
    var a := t / ltv;
    assert a * ltv == t;
    ScaleLess(a, 1.0, ltv);
  }

  /** The debt of a position whose health is 1 on entry. */
  function DebtAtThreshold(amount: real, t: real): real
    requires t < 1.0
  {
    t * amount / (1.0 - t)
  }

  /** In other markets the two agree at every price exactly when the legs that the request gets come to that debt. */
  lemma ShortsAgreeExactly(m: Market, req: Request, q: Quote)
    requires ValidRequest(req.direction, req.amount, EffectiveLTV(m)) && req.direction == Short
    ensures Quoted(m, req, q) ==>
              ((forall ratio | ratio > 0.0 :: AgreeAt(q, Short, ratio))
               <==> 0.0 < m.liqThreshold < 1.0
                    && var z := SizingOf(req.amount, EffectiveLTV(m), req.leverage, MinBorrow(m));
                       var debt := DebtAtThreshold(req.amount, m.liqThreshold);
                       exists legs :: OwesAfter(z, req.amount, MAX_LEGS, legs, debt))
  {
    hide PlanFor, AgreeAt, EffectiveLTV, MinBorrow, SizingOf, Clamp, OwesAfter, LiquidationPrice, Borrows, Sum;
    if Quoted(m, req, q) {
      var z := SizingOf(req.amount, EffectiveLTV(m), req.leverage, MinBorrow(m));
      var t := m.liqThreshold;
      ShortsAreQuotedEarly(m, req, q);
      RequestIsSized(req.direction, req.amount, EffectiveLTV(m), req.leverage, MinBorrow(m));
      PlanFields(req.direction, req.amount, EffectiveLTV(m), req.leverage, MinBorrow(m));
      if t > 0.0 {
        EntersAtThreshold(q.plan.totalBorrowed, req.amount, t);
      }
      if t < 1.0 {
        PlanOwes(z, req.amount, MAX_LEGS, DebtAtThreshold(req.amount, t));
      }
    }
  }

  lemma EntersAtThreshold(debt: real, amount: real, t: real)
    requires debt > 0.0 && amount > 0.0 && t > 0.0
    ensures t >= 1.0 ==> debt != t * (amount + debt)
    ensures t < 1.0 ==> (debt == t * (amount + debt) <==> debt == DebtAtThreshold(amount, t))
  {
    var all := amount + debt;
    if t >= 1.0 {
      Times(1.0, t, all);
    } else {
      var kept, most := 1.0 - t, DebtAtThreshold(amount, t);
      assert most * kept == t * amount;
      assert debt * kept == debt - t * debt;
      if debt == t * all {
        EqualBy(debt, most, kept);
      }
    }
  }

  /** A request that a single leg meets is quoted exactly the debt it asks for. */
  lemma OneLeg(m: Market, dir: Direction, amount: real, leverage: real)
    requires ValidRequest(dir, amount, EffectiveLTV(m))
    requires 1.0 + EPSILON < leverage <= 1.0 + 0.75 * EffectiveLTV(m) && (leverage - 1.0) * amount >= MinBorrow(m)
    ensures var p := PlanOn(m, dir, amount, leverage);
            |p.legs| == 1 && p.totalBorrowed == (leverage - 1.0) * amount && p.totalExposure == leverage * amount
  {
    hide PlanFor, Clamp, SizingOf, Borrows, Full, EffectiveLTV, MinBorrow;
    var mltv, least := EffectiveLTV(m), MinBorrow(m);
    var z := SizingOf(amount, mltv, leverage, least);
    RequestIsSized(dir, amount, mltv, leverage, least);
    PlanFields(dir, amount, mltv, leverage, least);
    ClampKeepsOrder(leverage, leverage, z.ltv);
    OneBorrow(z, amount, leverage);
  }

  lemma OneBorrow(z: Sizing, amount: real, leverage: real)
    requires z.Valid() && amount > 0.0 && z.slack == EPSILON * amount && z.goal == (leverage - 1.0) * amount
    requires 1.0 + EPSILON < leverage <= 1.0 + z.ltv && z.goal >= z.minBorrow
    ensures Borrows(z, amount, 0.0, MAX_LEGS) == [z.goal] && Sum([z.goal]) == z.goal
  {
    hide Borrows, Full, Sizing.Next;
    var full := Full(z.ltv, amount);
    FullPositive(z.ltv, amount);
    NextIs(z, amount, full, 0.0);
    GoalWithin(z.ltv, amount, leverage, z.slack, z.goal, full);
    Peel(z, amount, 0.0, MAX_LEGS);
    LoopEnds(z, z.goal, 0.0 + z.goal, MAX_LEGS - 1);
  }

  lemma GoalWithin(ltv: real, amount: real, leverage: real, slack: real, goal: real, full: real)
    requires amount > 0.0 && slack == EPSILON * amount && goal == (leverage - 1.0) * amount && full == Full(ltv, amount)
    requires 1.0 + EPSILON < leverage <= 1.0 + ltv
    ensures slack < goal <= full
  {
    ScaleLess(EPSILON, leverage - 1.0, amount);
    Times(leverage - 1.0, ltv, amount);
  }

  /** How far apart they can be: a short of 1000 at 1.3x, in a market with a loan-to-value of 0.5 and a threshold of
      0.6, is quoted liquidation on a rise of 8/13, about 62 %, where the monitor sees it on one of 160 %. */
  lemma ShortQuotedTooEarly() returns (q: Quote)
    ensures QuoteFor(Market(0.5, 0.0, 0.6), Request(Short, 1000.0, 1.3)) == Ok(q)
    ensures q.plan.totalBorrowed == 300.0 && q.plan.totalExposure == 1300.0 && q.liqMovePct / 100.0 == 8.0 / 13.0
    ensures forall ratio | ratio > 0.0 :: AgreeAt(q, Short, ratio) <==> !(1.0 + 8.0 / 13.0 <= ratio < 2.6)
  {
    hide PlanFor, AgreeAt, LiquidationPrice;
    var m, req := Market(0.5, 0.0, 0.6), Request(Short, 1000.0, 1.3);
    OneLeg(m, Short, 1000.0, 1.3);
    q := QuoteOf(m, req, PlanOn(m, Short, 1000.0, 1.3));
    forall ratio | ratio > 0.0
      ensures AgreeAt(q, Short, ratio) <==> !(1.0 + q.liqMovePct / 100.0 <= ratio < 2.6)
    {
      ShortsDifferBetween(m, req, q, ratio);
    }
    var entry, trip := BothViews(m, req, q, 1.0);
  }

  // ---------- profit, and whole quotes ----------

  /** What is gained on the user's capital is what the exposure gains or, for a short, loses with the price. */
  lemma ProfitIs(dir: Direction, exposure: real, initial: real, ratio: real)
    requires initial > 0.0 && exposure > 0.0 && !dir.Unknown?
    ensures var profit, gain := PnlPct(dir, exposure, initial, ratio) / 100.0 * initial, exposure * ratio - exposure;
            profit == if dir == Long then gain else -gain
    ensures dir == Long ==> (PnlPct(dir, exposure, initial, ratio) > 0.0 <==> ratio > 1.0)
    ensures dir == Short ==> (PnlPct(dir, exposure, initial, ratio) > 0.0 <==> ratio < 1.0)
    ensures PnlPct(dir, exposure, initial, ratio) == 0.0 <==> ratio == 1.0
  {
    var times := exposure / initial;
    assert times * initial == exposure;
    ScaleLess(0.0, times, initial);
    var move := if dir == Long then ratio - 1.0 else 1.0 - ratio;
    MoveTimes(move, times, initial, exposure);
    ScaleLess(0.0, move, times);
    ScaleLess(move, 0.0, times);
  }

  lemma MoveTimes(move: real, times: real, initial: real, exposure: real)
    requires times * initial == exposure
    ensures move * times * initial == move * exposure
  {
    Same(move, times * initial, exposure);
  }

  /** The reserve is the larger of its two bounds, so each loop adds to it once there are enough of them. */
  lemma ReserveIsLeast(loops: nat, fee: nat)
    requires fee >= MIN_FEE && fee >= BASE_FEE + loops * PER_LOOP_FEE
    ensures FeeReserveFor(loops) <= fee
  {
  }

  /** What a quote says beside its plan: what must be sent, reserve included; and that the plan falls short of the
      leverage asked for, exactly when its exposure does by more than a thousandth of the capital. */
  lemma QuoteSays(m: Market, req: Request, q: Quote)
    requires ValidRequest(req.direction, req.amount, EffectiveLTV(m))
    ensures QuoteFor(m, req) == Ok(q) ==>
              && q.loops == |q.plan.legs| && q.liqThreshold == m.liqThreshold
              && (q.totalNeeded - req.amount) * 1000000.0 == FeeReserveFor(q.loops) as real
              && q.feeReserve == q.totalNeeded - req.amount
              && (q.noted <==> q.plan.totalExposure < (req.leverage - 0.001) * req.amount)
  {
    hide PlanFor, LiquidationPrice, FeeReserveFor, EffectiveLTV, MinBorrow, Printed, Full;
    if QuoteFor(m, req) == Ok(q) {
      QuotedExposure(m, req);
      Misses(q.plan.achieved, req.leverage - 0.001, req.amount, q.plan.totalExposure);
    }
  }

  lemma QuotedExposure(m: Market, req: Request)
    requires ValidRequest(req.direction, req.amount, EffectiveLTV(m))
    ensures var p := PlanOn(m, req.direction, req.amount, req.leverage); p.totalExposure == p.achieved * req.amount
  {
    hide PlanFor, LastHeld;
    PlansAreBounded(req.direction, req.amount, EffectiveLTV(m), req.leverage, MinBorrow(m));
  }

  lemma Misses(achieved: real, least: real, amount: real, exposure: real)
    requires amount > 0.0 && exposure == achieved * amount
    ensures achieved < least <==> exposure < least * amount
  {
    ScaleLess(achieved, least, amount);
  }

  /** A quote in full: one loop of a short, two transactions, and the least reserve. */
  lemma ShortInFull()
    ensures var q := QuoteFor(Market(0.5, 0.0, 0.6), Request(Short, 1000.0, 1.3));
            && q.Ok? && q.value.loops == 1 && q.value.txCount == 2 && q.value.feeReserve == 30.0
            && q.value.totalNeeded == 1030.0 && q.value.plan.totalBorrowed == 300.0 && q.value.plan.legLTV == 0.375
  {
    hide PlanFor, LiquidationPrice, Printed;
    OneLeg(Market(0.5, 0.0, 0.6), Short, 1000.0, 1.3);
    PlanTarget(Short, 1000.0, 0.5, 1.3, 20.0);
  }

  /** A long buys first; a market that reports no loan-to-value is taken to have one half, and one without a threshold
      is quoted no move. */
  lemma LongInFull()
    ensures var q := QuoteFor(Market(0.0, 35.0, 0.0), Request(Long, 2000.0, 1.2));
            && q.Ok? && q.value.loops == 1 && q.value.txCount == 3 && q.value.liqMovePct == 0.0
            && q.value.plan.totalBorrowed == 400.0 && q.value.plan.legLTV == 0.375
  {
    hide PlanFor, LiquidationPrice, Printed, LastHeld;
    var m := Market(0.0, 35.0, 0.0);
    OneLeg(m, Long, 2000.0, 1.2);
    PlanTarget(Long, 2000.0, 0.5, 1.2, 35.0);
    PlansAreBounded(Long, 2000.0, 0.5, 1.2, 35.0);
    var plan := PlanOn(m, Long, 2000.0, 1.2);
    MoveIs(Long, plan.achieved, plan.totalBorrowed / 2000.0, 0.0);
  }

  /** A market's own loan-to-value is what its legs are sized by, three quarters of it. */
  lemma OwnLTV(m: Market, dir: Direction, amount: real, leverage: real)
    requires amount > 0.0 && !dir.Unknown?
    ensures PlanOn(m, dir, amount, leverage).legLTV == 0.75 * if 0.0 < m.ltv < 1.0 then m.ltv else 0.5
  {
    SameLTV(m, dir, amount, leverage);
    hide PlanOn;
  }

  /** Health where no threshold is reported: four fifths of the exposure over the debt. */
  lemma DefaultHealth(exposure: real, debt: real)
    requires debt > 0.0
    ensures EntryHealth(exposure, debt, Threshold(0.0)) * debt == 0.8 * exposure
  {
    hide EntryHealth;
    EntryIs(exposure, debt, 0.8);
  }

  /** A figure is printed as the nearest hundredth; of two equally near, as the one whose hundredths are even. */
  lemma PrintedIsNearest(x: real)
    ensures x - 0.005 <= Printed(x) <= x + 0.005
    ensures Printed(x) == x - 0.005 || Printed(x) == x + 0.005 ==> RoundEven(100.0 * x) % 2 == 0
    ensures Printed(x) * 100.0 == RoundEven(100.0 * x) as real
  {
  }

  /** A market's own minimum counts where it is above 20. */
  lemma MinimumInFull()
    ensures QuoteFor(Market(1.0, 35.0, 0.0), Request(Long, 2000.0, 1.017)) == Err(TooLow(1.0 + 35.0 / 2000.0))
    ensures FeeReserveFor(3) == 40_000_000 && FeeReserveFor(2) == 30_000_000
  {
    hide PlanFor, LiquidationPrice, Printed;
    PlanTarget(Long, 2000.0, 0.5, 1.017, 35.0);
    FirstLeg(Long, 2000.0, 0.5, 1.017, 35.0);
    ClampKeepsOrder(1.017, 1.017, 0.375);
  }
}
