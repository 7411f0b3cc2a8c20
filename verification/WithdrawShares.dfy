/** Withdrawing from a lending pool. The user holds shares of it and is shown what they are worth; the amount asked
    for is turned back into shares to burn. A "full" withdrawal goes through all of it: shown, cut to six decimals,
    rounded to units, divided by the rate, and one share less. */
module WithdrawShares {
  import opened RealArithmetic

  const MICRO: real := 1000000.0

  /** A pool's totals: underlying units supplied, and shares issued for them. */
  datatype Pool = Pool(supplied: real, shares: real)

  // ---------- the conversions ----------

  function Pow10(n: int): (p: real)
    ensures p >= 1.0
    decreases if n < 0 then 0 else n
  {
    if n <= 0 then 1.0 else Pow10(n - 1) * 10.0
  }

  method ComputePow10(n: int) returns (v: real)
    ensures v == Pow10(n)
  {
    v := 1.0;
    var i := 0;
    while i < n
      invariant 0 <= i && (n >= 0 ==> i <= n) && (n < 0 ==> i == 0)
      invariant v == Pow10(i)
    {
      v := v * 10.0;
      i := i + 1;
    }
  }

  /** Half away from zero. */
  function Round(x: real): int {
    if x >= 0.0 then (x + 0.5).Floor else -((-x + 0.5).Floor)
  }

  /** Underlying units a share stands for; 0 when the pool has no shares or could not be read. */
  function PoolRate(pool: Pool): real {
    if pool.shares > 0.0 then pool.supplied / pool.shares else 0.0
  }

  /** Whole underlying a share stands for, as markets are listed. */
  function SupplyExchangeRate(pool: Pool, decimals: int): real {
    if pool.shares > 0.0 then (pool.supplied / Pow10(decimals)) / pool.shares else 0.0
  }

  /** What a holding is shown as. */
  function Shown(held: nat, exchangeRate: real): real {
    if exchangeRate > 0.0 then held as real * exchangeRate else held as real
  }

  function Truncated(amount: real): real {
    if amount > 0.0 then (amount * MICRO).Floor as real / MICRO else 0.0
  }

  function Scale(amount: real, scale: real): int {
    Round(amount * scale)
  }

  function UnitsOf(amount: real, decimals: int): int {
    Scale(amount, Pow10(decimals))
  }

  /** Shares a withdrawal burns. */
  function Burned(units: int, rate: real, full: bool): int {
    var shares := if rate > 0.0 then (units as real / rate).Floor else units;
    if full && shares > 0 then shares - 1 else shares
  }

  method BuildWithdraw(amount: real, decimals: int, rate: real, full: bool) returns (shares: int)
    ensures shares == Burned(UnitsOf(amount, decimals), rate, full)
  {
    hide Scale, Pow10;
    var scale := ComputePow10(decimals);
    var units := Scale(amount, scale);
    if rate > 0.0 {
      shares := (units as real / rate).Floor;
    } else {
      shares := units;
    }
    if full && shares > 0 {
      shares := shares - 1;
    }
  }

  /** The units a full withdrawal of a holding asks for. */
  function Asked(held: nat, decimals: int, pool: Pool): int {
    UnitsOf(Truncated(Shown(held, SupplyExchangeRate(pool, decimals))), decimals)
  }

  /** A full withdrawal of a holding, shown at one state of the pool and built at another. */
  function FullWithdraw(held: nat, decimals: int, shown: Pool, now: Pool): int {
    Burned(Asked(held, decimals, shown), PoolRate(now), true)
  }

  predicate Live(pool: Pool) {
    pool.supplied > 0.0 && pool.shares > 0.0
  }

  // ---------- one step at a time ----------

  lemma FloorAtMost(x: real, y: real, n: int)
    requires y == n as real
    ensures x < y + 1.0 ==> x.Floor <= n
    ensures x >= y ==> x.Floor >= n
  {
  }

  lemma Ratio(x: real, rate: real, q: real)
    requires rate > 0.0 && q == x / rate
    ensures q * rate == x
  {
  }

  lemma RatePositive(pool: Pool)
    requires Live(pool)
    ensures PoolRate(pool) > 0.0 && PoolRate(pool) * pool.shares == pool.supplied
  {
    var rate := PoolRate(pool);
    Ratio(pool.supplied, pool.shares, rate);
    ScaleLess(0.0, rate, pool.shares);
  }

  /** What is shown, in units, is the holding at the pool's rate. */
  lemma ShownInUnits(held: nat, decimals: int, pool: Pool, amount: real, scale: real, h: real)
    requires Live(pool) && scale == Pow10(decimals) && h == held as real
    requires amount == Shown(held, SupplyExchangeRate(pool, decimals))
    ensures amount * scale == h * PoolRate(pool)
  {
    var xr, rate, perUnit := SupplyExchangeRate(pool, decimals), PoolRate(pool), pool.supplied / scale;
    RatePositive(pool);
    Ratio(pool.supplied, scale, perUnit);
    Ratio(perUnit, pool.shares, xr);
    SameRate(xr, rate, perUnit, pool.shares, pool.supplied, scale);
    ScaleLess(0.0, xr, scale);
    Rearranged(h, xr, scale, rate, amount);
  }

  lemma SameRate(xr: real, rate: real, perUnit: real, shares: real, supplied: real, scale: real)
    requires shares > 0.0 && scale > 0.0
    requires xr * shares == perUnit && perUnit * scale == supplied && rate * shares == supplied
    ensures xr * scale == rate
  {
    var a := xr * scale;
    Same(scale, xr * shares, perUnit);
    assert a * shares == (xr * shares) * scale;
    EqualBy(a, rate, shares);
  }

  lemma Rearranged(h: real, xr: real, scale: real, rate: real, amount: real)
    requires xr * scale == rate && amount == h * xr
    ensures amount * scale == h * rate
  {
    Same(h, xr * scale, rate);
  }

  /** Cutting to six decimals never adds; in units it takes off less than a millionth of the scale. */
  lemma CutInUnits(amount: real, cut: real, scale: real, gap: real)
    requires amount >= 0.0 && scale > 0.0 && cut == Truncated(amount) && gap == amount - cut
    ensures cut >= 0.0 && cut * scale <= amount * scale && gap * MICRO < 1.0
  {
    if amount > 0.0 {
      var micros := (amount * MICRO).Floor as real;
      assert cut * MICRO == micros;
      Times(cut, amount, scale);
    }
  }

  lemma RoundNear(x: real)
    requires x >= 0.0
    ensures 0 <= Round(x) && x - 0.5 < Round(x) as real <= x + 0.5
  {
  }

  /** The nearest whole number, of two equally near the one farther from zero; negative amounts as positive ones. */
  lemma RoundIsNearest(x: real)
    ensures x - 0.5 <= Round(x) as real <= x + 0.5 && Round(-x) == -Round(x)
    ensures x >= 0.0 ==> Round(x) as real > x - 0.5
  {
  }

  /** Where a pool has no shares there is no rate, and a holding is shown share for unit; nothing is shown as
      nothing. */
  lemma UnpricedPool(pool: Pool, held: nat, decimals: int, amount: real)
    requires pool.shares <= 0.0 && amount <= 0.0
    ensures PoolRate(pool) == 0.0 && SupplyExchangeRate(pool, decimals) == 0.0
    ensures Shown(held, SupplyExchangeRate(pool, decimals)) == held as real && Truncated(amount) == 0.0
  {
  }

  // ---------- powers of ten ----------

  /** Units to a millionth of the whole, from six decimals on. */
  function Grain(decimals: int): (g: nat)
    ensures g > 0
    decreases if decimals < 0 then 0 else decimals
  {
    if decimals <= 6 then 1 else 10 * Grain(decimals - 1)
  }

  lemma {:induction false} WholeUnits(decimals: int)
    requires decimals >= 6
    ensures Pow10(decimals) == MICRO * Grain(decimals) as real
    decreases decimals
  {
    if decimals == 6 {
      SixIsMicro();
    } else {
      WholeUnits(decimals - 1);
    }
  }

  lemma SixIsMicro()
    ensures Pow10(6) == MICRO
  {
    assert Pow10(3) == 1000.0;
  }

  /** Below six decimals a unit is an even number of millionths of the whole. */
  lemma MicrosPerUnit(decimals: nat) returns (half: nat)
    requires decimals < 6
    ensures Pow10(decimals) * (2 * half) as real == MICRO && half > 0
  {
    half := match decimals
      case 0 => 500000
      case 1 => 50000
      case 2 => 5000
      case 3 => 500
      case 4 => 50
      case _ => 5;
    assert Pow10(1) == 10.0;
    assert Pow10(2) == 100.0;
    assert Pow10(3) == 1000.0;
    assert Pow10(4) == 10000.0;
    assert Pow10(5) == 100000.0;
  }

  // ---------- full withdrawals ----------

  /** The units asked for exceed the holding at the pool's rate by at most one half, and by nothing from six decimals
      on. */
  lemma UnitsAsked(held: nat, decimals: int, pool: Pool, h: real, worth: real)
    requires Live(pool) && h == held as real && worth == h * PoolRate(pool)
    ensures var units := Asked(held, decimals, pool);
            && 0 <= units && units as real <= worth + 0.5
            && (decimals >= 6 ==> units as real <= worth)
  {
    hide Truncated, SupplyExchangeRate, PoolRate, Round, Scale, Shown, Pow10;
    var amount := Shown(held, SupplyExchangeRate(pool, decimals));
    var scale := Pow10(decimals);
    var cut := Truncated(amount);
    ShownInUnits(held, decimals, pool, amount, scale, h);
    ShownPositive(held, decimals, pool);
    CutInUnits(amount, cut, scale, amount - cut);
    ScaleNear(cut, scale, worth);
    if decimals >= 6 {
      WholeUnits(decimals);
      var micros := CutMicros(amount, cut);
      WholeStays(cut, scale, Grain(decimals), micros, worth);
    }
  }

  lemma ScaleNear(cut: real, scale: real, worth: real)
    requires cut >= 0.0 && scale >= 1.0 && cut * scale <= worth
    ensures 0 <= Scale(cut, scale) && Scale(cut, scale) as real <= worth + 0.5
  {
    hide Round;
    var x := cut * scale;
    Times(0.0, cut, scale);
    RoundNear(x);
  }

  lemma CutMicros(amount: real, cut: real) returns (micros: nat)
    requires amount >= 0.0 && cut == Truncated(amount)
    ensures cut * MICRO == micros as real
  {
    micros := (amount * MICRO).Floor;
  }

  lemma WholeStays(cut: real, scale: real, q: nat, micros: nat, worth: real)
    requires cut * MICRO == micros as real && scale == MICRO * q as real && cut * scale <= worth
    ensures Scale(cut, scale) as real <= worth
  {
    hide Round, Scale;
    var n := micros * q;
    ProductAsReal(micros, q);
    ScaleIs(cut, scale, q as real, micros as real, n);
  }

  lemma ScaleIs(cut: real, scale: real, times: real, m: real, n: nat)
    requires cut * MICRO == m && scale == MICRO * times && n as real == m * times
    ensures Scale(cut, scale) == n && n as real == cut * scale
  {
    hide Scale;
    Regroup(cut, times, m, scale);
    ScaleWhole(cut, scale, n);
  }

  lemma ScaleWhole(cut: real, scale: real, n: nat)
    requires cut * scale == n as real
    ensures Scale(cut, scale) == n
  {
  }

  lemma {:induction false} ProductAsReal(a: nat, b: nat)
    ensures (a * b) as real == a as real * b as real
    decreases b
  {
    if b > 0 {
      ProductAsReal(a, b - 1);
      assert a * b == a * (b - 1) + a;
    }
  }

  lemma ShownPositive(held: nat, decimals: int, pool: Pool)
    requires Live(pool)
    ensures Shown(held, SupplyExchangeRate(pool, decimals)) >= 0.0
  {
    var xr := SupplyExchangeRate(pool, decimals);
    if xr > 0.0 {
      Times(0.0, held as real, xr);
    }
  }

  lemma Regroup(cut: real, times: real, micros: real, scale: real)
    requires cut * MICRO == micros && scale == MICRO * times
    ensures cut * scale == micros * times
  {
    Same(times, cut * MICRO, micros);
  }

  /** Shares bought back with units are at most the units over the rate. */
  lemma AtMost(u: real, rate: real, h: real, more: real, held: nat)
    requires rate > 0.0 && h == held as real && more == h + 2.0
    ensures u <= h * rate ==> (u / rate).Floor <= held
    ensures u < more * rate ==> (u / rate).Floor <= held + 1
  {
    var q, next := u / rate, h + 1.0;
    Ratio(u, rate, q);
    ScaleLess(h, q, rate);
    if q < more {
      FloorAtMost(q, next, held + 1);
    } else {
      Times(more, q, rate);
    }
    if q <= h {
      FloorAtMost(q, h, held);
    }
  }

  /** The rate a withdrawal is built at: where the pool could not be read, units are taken for shares, one for one. */
  function BuildRate(pool: Pool): (rate: real)
    ensures rate > 0.0
  {
    if PoolRate(pool) > 0.0 then PoolRate(pool) else 1.0
  }

  lemma BurnedAtBuildRate(units: int, pool: Pool, full: bool)
    ensures Burned(units, PoolRate(pool), full) == Burned(units, BuildRate(pool), full)
  {
    hide PoolRate;
    assert (units as real / 1.0).Floor == units;
  }

  /** Built at a rate no lower than the one shown, a full withdrawal never burns more than is held: from six decimals
      on at any rate, and below that at any rate above a quarter unit a share. */
  lemma FullNeverOverburns(held: nat, decimals: int, shown: Pool, now: Pool)
    requires Live(shown)
    ensures PoolRate(shown) <= BuildRate(now) && (decimals >= 6 || BuildRate(now) > 0.25) ==>
              FullWithdraw(held, decimals, shown, now) <= held
  {
    hide PoolRate, BuildRate, UnitsOf, Truncated, Shown, SupplyExchangeRate, Burned;
    var h, before, rate := held as real, PoolRate(shown), BuildRate(now);
    var units := Asked(held, decimals, shown);
    var worth := h * before;
    UnitsAsked(held, decimals, shown, h, worth);
    BurnedAtBuildRate(units, now, true);
    if before <= rate {
      Times(before, rate, h);
      FewBurned(units, rate, h, held, worth);
    }
  }

  lemma FewBurned(units: int, rate: real, h: real, held: nat, worth: real)
    requires rate > 0.0 && h == held as real && worth <= h * rate && 0 <= units && units as real <= worth + 0.5
    ensures units as real <= worth || rate > 0.25 ==> Burned(units, rate, true) <= held
  {
    var u, more := units as real, h + 2.0;
    TwoMore(h, rate, more);
    AtMost(u, rate, h, more, held);
  }

  lemma TwoMore(h: real, rate: real, more: real)
    requires more == h + 2.0
    ensures more * rate == h * rate + 2.0 * rate
  {
  }

  /** Up to six decimals the units asked for fall less than one unit short of the holding. */
  lemma UnitsAskedLeast(held: nat, decimals: int, pool: Pool, h: real, worth: real)
    requires Live(pool) && decimals <= 6 && h == held as real && worth == h * PoolRate(pool)
    ensures Asked(held, decimals, pool) as real > worth - 1.0
  {
    hide Truncated, SupplyExchangeRate, PoolRate, Round, Scale, Shown, Pow10;
    var amount := Shown(held, SupplyExchangeRate(pool, decimals));
    var scale := Pow10(decimals);
    var cut := Truncated(amount);
    ShownInUnits(held, decimals, pool, amount, scale, h);
    ShownPositive(held, decimals, pool);
    var gap := amount - cut;
    CutInUnits(amount, cut, scale, gap);
    if decimals == 6 {
      SixIsMicro();
      var micros := CutMicros(amount, cut);
      ScaleIs(cut, scale, 1.0, micros as real, micros);
    } else {
      SmallScale(decimals);
      GapPositive(amount, cut, gap, scale);
      Tenth(gap, scale);
      ScaleLeast(cut, scale);
      GapInUnits(amount, cut, gap, scale, worth);
    }
  }

  lemma Tenth(gap: real, scale: real)
    requires gap >= 0.0 && gap * MICRO < 1.0 && scale <= 100000.0
    ensures scale * gap <= 0.1
  {
    var most := 100000.0;
    Times(scale, most, gap);
  }

  lemma GapPositive(amount: real, cut: real, gap: real, scale: real)
    requires gap == amount - cut && cut * scale <= amount * scale && scale >= 1.0
    ensures gap >= 0.0
  {
    if amount < cut {
      ScaleLess(amount, cut, scale);
    }
  }

  lemma GapInUnits(amount: real, cut: real, gap: real, scale: real, worth: real)
    requires gap == amount - cut && amount * scale == worth
    ensures worth - cut * scale == scale * gap
  {
  }

  lemma SmallScale(decimals: int)
    requires decimals < 6
    ensures Pow10(decimals) <= 100000.0
  {
    assert Pow10(2) == 100.0;
    assert Pow10(3) == 1000.0;
    assert Pow10(4) == 10000.0;
    assert Pow10(5) == 100000.0;
  }

  lemma ScaleLeast(cut: real, scale: real)
    requires cut >= 0.0 && scale >= 1.0
    ensures Scale(cut, scale) as real > cut * scale - 0.5
  {
    Times(0.0, cut, scale);
  }

  /** Nor does it leave much: of a token with up to six decimals, at a unit a share or more, at most two shares. */
  lemma FullLeavesTwo(held: nat, decimals: int, pool: Pool)
    requires Live(pool) && decimals <= 6 && PoolRate(pool) >= 1.0
    ensures FullWithdraw(held, decimals, pool, pool) >= held - 2
  {
    hide PoolRate, UnitsOf, Truncated, Shown, SupplyExchangeRate;
    var h, rate := held as real, PoolRate(pool);
    var units := Asked(held, decimals, pool);
    var worth := h * rate;
    UnitsAskedLeast(held, decimals, pool, h, worth);
    ManyBurned(units, rate, h, held, worth);
  }

  lemma ManyBurned(units: int, rate: real, h: real, held: nat, worth: real)
    requires rate >= 1.0 && h == held as real && worth == h * rate && units as real > worth - 1.0
    ensures Burned(units, rate, true) >= held - 2
  {
    var u, less := units as real, h - 1.0;
    var q := u / rate;
    Ratio(u, rate, q);
    OneLess(h, rate, less);
    ScaleLess(less, q, rate);
    FloorAtMost(q, less, held - 1);
  }

  lemma OneLess(h: real, rate: real, less: real)
    requires less == h - 1.0
    ensures less * rate == h * rate - rate
  {
  }

  // ---------- where it does overburn ----------

  /** Cutting to millionths of the whole leaves an amount at or above a half unit there, where a unit is an even
      number of millionths. */
  lemma HalfSurvives(amount: real, cut: real, scale: real, half: nat, n: nat, worth: real)
    requires scale >= 1.0 && scale * (2 * half) as real == MICRO && half > 0 && n > 0
    requires amount >= 0.0 && cut == Truncated(amount) && amount * scale == worth && worth >= n as real - 0.5
    ensures cut * scale >= n as real - 0.5
  {
    hide Truncated;
    var grain := (2 * half) as real;
    var micros := CutMicros(amount, cut);
    var least := 2 * n * half - half;
    var l, m := least as real, micros as real;
    var floorOf := n as real - 0.5;
    Grains(n, half, floorOf, grain, l);
    InGrains(amount, scale, grain, worth);
    Times(floorOf, worth, grain);
    AtLeastFloor(amount, cut, micros, least);
    CutInGrains(cut, scale, grain, m);
    var x := cut * scale;
    if x < floorOf {
      ScaleLess(x, floorOf, grain);
    }
  }

  lemma Grains(n: nat, half: nat, floorOf: real, grain: real, l: real)
    requires floorOf == n as real - 0.5 && grain == (2 * half) as real && l == (2 * n * half - half) as real && n > 0
    ensures floorOf * grain == l
  {
    ProductAsReal(n, half);
    assert 2 * n * half == 2 * (n * half);
  }

  lemma InGrains(amount: real, scale: real, grain: real, worth: real)
    requires scale * grain == MICRO && amount * scale == worth
    ensures amount * MICRO == worth * grain
  {
    Same(amount, MICRO, scale * grain);
    Same(grain, worth, amount * scale);
  }

  lemma CutInGrains(cut: real, scale: real, grain: real, m: real)
    requires scale * grain == MICRO && cut * MICRO == m
    ensures (cut * scale) * grain == m
  {
    Same(cut, MICRO, scale * grain);
  }

  lemma AtLeastFloor(amount: real, cut: real, micros: nat, least: int)
    requires amount >= 0.0 && cut == Truncated(amount) && cut * MICRO == micros as real
    requires amount * MICRO >= least as real
    ensures micros >= least
  {
  }

  /** Half a unit a share is lost between two shares and the rounding: at a quarter unit a share or less, over fewer
      than six decimals, holding all but `b / 2a` of a pool's `b` shares is enough to be asked for one too many. */
  lemma SomeHoldingOverburns(a: nat, b: nat, decimals: nat)
    requires a > 0 && 4 * a <= b && decimals < 6
    ensures var pool := Pool(a as real, b as real);
            && 2 <= HalfUnit(a, b) <= b
            && FullWithdraw(b - HalfUnit(a, b), decimals, pool, pool) == b - 1
  {
    hide HalfUnit, PoolRate, SupplyExchangeRate, Shown, Truncated, Scale, Pow10, Round, Burned;
    var share := HalfUnit(a, b);
    Halves(a, b, share);
    var k: nat := share;
    var held: nat := b - k;
    var pool := Pool(a as real, b as real);
    var ar, br, kr, h, rate := a as real, b as real, k as real, held as real, PoolRate(pool);
    RatePositive(pool);
    var worth := h * rate;
    KeptUnder(a, b, k);
    WorthIs(ar, br, kr, h, rate, worth);
    var amount := Shown(held, SupplyExchangeRate(pool, decimals));
    AsksForAll(held, a, decimals, pool, amount, h, worth);
    AllShares(a, b, rate);
  }

  /** How many shares are worth a half unit, rounded down. */
  function HalfUnit(a: nat, b: nat): int
    requires a > 0
  {
    b / (2 * a)
  }

  lemma AsksForAll(held: nat, a: nat, decimals: nat, pool: Pool, amount: real, h: real, worth: real)
    requires Live(pool) && decimals < 6 && a > 0 && h == held as real && worth == h * PoolRate(pool)
    requires amount == Shown(held, SupplyExchangeRate(pool, decimals))
    requires a as real - 0.5 <= worth < a as real
    ensures UnitsOf(Truncated(amount), decimals) == a
  {
    hide PoolRate, SupplyExchangeRate, Shown, Truncated, Scale, Pow10, Round;
    var scale := Pow10(decimals);
    ShownInUnits(held, decimals, pool, amount, scale, h);
    ShownPositive(held, decimals, pool);
    var half := MicrosPerUnit(decimals);
    var cut := Truncated(amount);
    HalfSurvives(amount, cut, scale, half, a, worth);
    CutInUnits(amount, cut, scale, amount - cut);
    RoundsUp(cut, scale, a);
  }

  lemma Halves(a: nat, b: nat, k: int)
    requires a > 0 && 4 * a <= b && k == HalfUnit(a, b)
    ensures 2 <= k <= b && k * (2 * a) <= b
  {
    var d := 2 * a;
    Quotient(b, d, k);
    if k < 2 {
      var next := k + 1;
      IntTimes(next, 2, d);
    }
    IntTimes(1, d, k);
  }

  lemma Quotient(b: nat, d: nat, k: int)
    requires d > 0 && k == b / d
    ensures k * d <= b < (k + 1) * d
  {
  }

  lemma IntTimes(x: int, y: int, d: nat)
    requires x <= y
    ensures x * d <= y * d
  {
  }

  lemma KeptUnder(a: nat, b: nat, k: nat)
    requires k * (2 * a) <= b
    ensures k as real * a as real <= 0.5 * b as real
  {
    ProductAsReal(k, a);
    assert k * (2 * a) == 2 * (k * a);
  }

  lemma WorthIs(ar: real, br: real, kr: real, h: real, rate: real, worth: real)
    requires rate * br == ar && h == br - kr && worth == h * rate && rate > 0.0 && kr >= 2.0 && br > 0.0
    requires kr * ar <= 0.5 * br
    ensures ar - 0.5 <= worth < ar
  {
    var lost, bound := kr * rate, 0.5;
    Scaled(kr, rate);
    Less(h, br, kr, rate, worth, lost);
    LostInShares(lost, kr, rate, br, ar);
    if lost > bound {
      ScaleLess(bound, lost, br);
    }
  }

  lemma Less(h: real, br: real, kr: real, rate: real, worth: real, lost: real)
    requires h == br - kr && worth == h * rate && lost == kr * rate
    ensures worth == rate * br - lost
  {
  }

  lemma LostInShares(lost: real, kr: real, rate: real, br: real, ar: real)
    requires lost == kr * rate && rate * br == ar
    ensures lost * br == kr * ar
  {
    Same(br, lost, kr * rate);
    Same(kr, rate * br, ar);
  }

  lemma RoundsUp(cut: real, scale: real, n: nat)
    requires cut >= 0.0 && n as real - 0.5 <= cut * scale < n as real && n > 0
    ensures Scale(cut, scale) == n
  {
    hide Round;
    var x := cut * scale;
    RoundIs(x, n);
  }

  lemma RoundIs(x: real, n: nat)
    requires n as real - 0.5 <= x < n as real && n > 0
    ensures Round(x) == n
  {
  }

  lemma AllShares(a: nat, b: nat, rate: real)
    requires rate > 0.0 && rate * b as real == a as real && b > 1
    ensures Burned(a, rate, true) == b - 1
  {
    var q, br := a as real / rate, b as real;
    Ratio(a as real, rate, q);
    EqualBy(q, br, rate);
    FloorAtMost(q, br, b);
  }

  /** So a pool is safe for every holding issued exactly from six decimals on or above a quarter unit a share. */
  lemma SafeExactly(a: nat, b: nat, decimals: nat)
    requires a > 0 && b > 0
    ensures var pool := Pool(a as real, b as real);
            (forall held: nat | held <= b :: FullWithdraw(held, decimals, pool, pool) <= held)
            <==> decimals >= 6 || PoolRate(pool) > 0.25
  {
    hide FullWithdraw, PoolRate, HalfUnit;
    var pool := Pool(a as real, b as real);
    forall held: nat
      ensures decimals >= 6 || PoolRate(pool) > 0.25 ==> FullWithdraw(held, decimals, pool, pool) <= held
    {
      FullNeverOverburns(held, decimals, pool, pool);
      RatePositive(pool);
    }
    if decimals < 6 && PoolRate(pool) <= 0.25 {
      LowRateOverburns(a, b, decimals);
    }
  }

  lemma LowRateOverburns(a: nat, b: nat, decimals: nat)
    requires a > 0 && b > 0 && decimals < 6
    ensures var pool := Pool(a as real, b as real);
            PoolRate(pool) <= 0.25 ==>
              exists held: nat :: held <= b && FullWithdraw(held, decimals, pool, pool) > held
  {
    hide FullWithdraw, PoolRate, HalfUnit;
    var pool := Pool(a as real, b as real);
    var rate, quarter := PoolRate(pool), 0.25;
    RatePositive(pool);
    if rate <= quarter {
      Times(rate, quarter, b as real);
      SomeHoldingOverburns(a, b, decimals);
      var held: nat := b - HalfUnit(a, b);
      assert FullWithdraw(held, decimals, pool, pool) > held;
    }
  }

  // ---------- what is left, and partial withdrawals ----------

  /** A partial withdrawal never redeems more than the units asked for, and no share more would fit. */
  lemma PartialIsCovered(amount: real, decimals: int, rate: real)
    requires rate > 0.0
    ensures var units, shares := UnitsOf(amount, decimals), Burned(UnitsOf(amount, decimals), rate, false);
            shares as real * rate <= units as real < (shares + 1) as real * rate
  {
    hide UnitsOf;
    var units := UnitsOf(amount, decimals);
    var q := units as real / rate;
    Ratio(units as real, rate, q);
    var shares := q.Floor;
    var low, high := shares as real, (shares + 1) as real;
    Covered(units as real, rate, q, low, high);
  }

  lemma Covered(u: real, rate: real, q: real, low: real, high: real)
    requires rate > 0.0 && q * rate == u && low <= q < high
    ensures low * rate <= u < high * rate
  {
    Times(low, q, rate);
    ScaleLess(q, high, rate);
  }

  // ---------- when the rate falls, or cannot be read ----------

  /** What rounding may add to the units asked for. */
  function Slack(decimals: nat): real {
    if decimals < 6 then 0.5 else 0.0
  }

  /** Whole millionths, from six decimals on. */
  predicate OnGrid(u: int, decimals: nat) {
    u % Grain(decimals) == 0
  }

  /** Exactly when a holding asks for so many units: when it is worth them, or half a unit less below six decimals. */
  lemma AskedAtLeast(held: nat, decimals: nat, pool: Pool, u: nat, h: real, worth: real)
    requires Live(pool) && h == held as real && worth == h * PoolRate(pool)
    requires u > 0 && OnGrid(u, decimals)
    ensures Asked(held, decimals, pool) >= u <==> worth + Slack(decimals) >= u as real
  {
    hide Truncated, SupplyExchangeRate, PoolRate, Round, Scale, Shown, Pow10, Grain;
    var amount := Shown(held, SupplyExchangeRate(pool, decimals));
    var scale := Pow10(decimals);
    var cut := Truncated(amount);
    ShownInUnits(held, decimals, pool, amount, scale, h);
    ShownPositive(held, decimals, pool);
    CutInUnits(amount, cut, scale, amount - cut);
    if decimals >= 6 {
      WholeUnits(decimals);
      AtLeastWhole(amount, cut, scale, Grain(decimals), u, worth);
    } else {
      var half := MicrosPerUnit(decimals);
      if worth >= u as real - 0.5 {
        HalfSurvives(amount, cut, scale, half, u, worth);
      }
      RoundsAtLeast(cut, scale, u);
    }
  }

  lemma RoundsAtLeast(cut: real, scale: real, u: nat)
    requires cut >= 0.0 && scale >= 1.0 && u > 0
    ensures Scale(cut, scale) >= u <==> cut * scale >= u as real - 0.5
  {
    hide Round;
    var x := cut * scale;
    Times(0.0, cut, scale);
    RoundAtLeast(x, u);
  }

  lemma RoundAtLeast(x: real, u: nat)
    requires x >= 0.0
    ensures Round(x) >= u <==> x >= u as real - 0.5
  {
  }

  lemma AtLeastWhole(amount: real, cut: real, scale: real, grain: nat, u: nat, worth: real)
    requires amount >= 0.0 && cut == Truncated(amount) && scale == MICRO * grain as real && amount * scale == worth
    requires grain > 0 && u % grain == 0 && u > 0
    ensures Scale(cut, scale) >= u <==> worth >= u as real
  {
    hide Truncated, Round, Scale;
    var micros := CutMicros(amount, cut);
    var n, g := u / grain, grain as real;
    ProductAsReal(micros, grain);
    ScaleIs(cut, scale, g, micros as real, micros * grain);
    ProductAsReal(n, grain);
    assert u == n * grain;
    IntScaleLess(micros, n, grain);
    MicrosAtLeast(amount, cut, micros, n);
    var x, nr := amount * MICRO, n as real;
    Regrouped(amount, g, scale, x, worth);
    ScaleLess(x, nr, g);
  }

  lemma Regrouped(amount: real, g: real, scale: real, x: real, worth: real)
    requires scale == MICRO * g && amount * scale == worth && x == amount * MICRO
    ensures x * g == worth
  {
    Same(amount, scale, MICRO * g);
  }

  lemma MicrosAtLeast(amount: real, cut: real, micros: nat, n: nat)
    requires amount >= 0.0 && cut == Truncated(amount) && cut * MICRO == micros as real
    ensures micros >= n <==> amount * MICRO >= n as real
  {
  }

  lemma IntScaleLess(x: int, y: int, d: nat)
    requires d > 0
    ensures x < y <==> x * d < y * d
  {
  }

  /** The same in a pool of `a` units and `b` shares, in whole numbers. */
  lemma AskedInShares(held: nat, a: nat, b: nat, decimals: nat, u: nat)
    requires a > 0 && b > 0 && u > 0 && OnGrid(u, decimals)
    ensures Asked(held, decimals, Pool(a as real, b as real)) >= u <==> held >= Least(u, a, b, decimals)
  {
    hide PoolRate, Asked, Grain, Slack, Needed, Per, Ceil;
    var pool := Pool(a as real, b as real);
    var h, ar, br, rate := held as real, a as real, b as real, PoolRate(pool);
    var worth := h * rate;
    RatePositive(pool);
    AskedAtLeast(held, decimals, pool, u, h, worth);
    InShares(h, ar, br, rate, worth, u as real, Slack(decimals));
    ProductAsReal(held, a);
    ProductAsReal(u, b);
    InWholeShares(held * a, u * b, held, a, b, decimals, u);
    CeilAtMost(Needed(u, b, decimals), Per(a, decimals), held);
  }

  lemma InWholeShares(ha: nat, ub: nat, held: nat, a: nat, b: nat, decimals: nat, u: nat)
    requires ha == held * a && ub == u * b && a > 0
    ensures ha as real + Slack(decimals) * b as real >= ub as real
            <==> Needed(u, b, decimals) <= held * Per(a, decimals)
  {
    assert (2 * u - 1) * b == 2 * ub - b;
    assert held * (2 * a) == 2 * ha;
  }

  lemma InShares(h: real, ar: real, br: real, rate: real, worth: real, ur: real, slack: real)
    requires br > 0.0 && rate * br == ar && worth == h * rate
    ensures worth + slack >= ur <==> h * ar + slack * br >= ur * br
  {
    var sum := worth + slack;
    ScaleLess(sum, ur, br);
    Same(h, rate * br, ar);
  }

  /** Rounded up. */
  function Ceil(x: int, y: nat): int
    requires y > 0
  {
    (x + y - 1) / y
  }

  lemma CeilAtMost(x: int, y: nat, n: int)
    requires y > 0
    ensures Ceil(x, y) <= n <==> x <= n * y
  {
    var c := Ceil(x, y);
    assert c * y <= x + y - 1 < (c + 1) * y;
    IntScaleLess(n, c, y);
    if n < c {
      IntTimes(n + 1, c, y);
    } else {
      IntTimes(c, n, y);
    }
  }

  function Needed(u: int, b: nat, decimals: nat): int {
    if decimals < 6 then (2 * u - 1) * b else u * b
  }

  function Per(a: nat, decimals: nat): (per: nat)
    requires a > 0
    ensures per > 0
  {
    if decimals < 6 then 2 * a else a
  }

  /** The least holding that asks for so many units. */
  function Least(u: int, a: nat, b: nat, decimals: nat): int
    requires a > 0
  {
    Ceil(Needed(u, b, decimals), Per(a, decimals))
  }
  //@@NEW@@

  lemma AskedOnGrid(held: nat, decimals: nat, pool: Pool)
    requires Live(pool)
    ensures OnGrid(Asked(held, decimals, pool), decimals)
  {
    hide Truncated, SupplyExchangeRate, PoolRate, Round, Scale, Shown, Pow10;
    if decimals >= 6 {
      var amount := Shown(held, SupplyExchangeRate(pool, decimals));
      var scale, cut, grain := Pow10(decimals), Truncated(amount), Grain(decimals);
      ShownPositive(held, decimals, pool);
      WholeUnits(decimals);
      var micros := CutMicros(amount, cut);
      ProductAsReal(micros, grain);
      ScaleIs(cut, scale, grain as real, micros as real, micros * grain);
      WholeGrains(micros, grain);
    }
  }

  lemma WholeGrains(n: int, grain: nat)
    requires grain > 0
    ensures (n * grain) % grain == 0
  {
    var x := n * grain;
    var q := x / grain;
    assert q * grain <= x < (q + 1) * grain;
    IntScaleLess(n, q + 1, grain);
    IntScaleLess(n, q, grain);
  }

  /** What a pool's shares are all worth bounds what any holding in it asks for. */
  lemma AskedWithin(held: nat, a: nat, b: nat, decimals: nat)
    requires a > 0 && held <= b && b > 0
    ensures 0 <= Asked(held, decimals, Pool(a as real, b as real)) <= a
  {
    hide PoolRate, Asked;
    var pool := Pool(a as real, b as real);
    var h, br, rate := held as real, b as real, PoolRate(pool);
    RatePositive(pool);
    UnitsAsked(held, decimals, pool, h, h * rate);
    Times(h, br, rate);
  }

  /** A full withdrawal burns more than is held exactly when it asks for units worth two shares more. */
  lemma BurnsMore(held: nat, decimals: int, shown: Pool, now: Pool)
    requires Live(shown)
    ensures FullWithdraw(held, decimals, shown, now) > held
            <==> Asked(held, decimals, shown) as real >= (held + 2) as real * BuildRate(now)
  {
    hide Asked, PoolRate, BuildRate, Burned;
    var units, h := Asked(held, decimals, shown), held as real;
    UnitsAsked(held, decimals, shown, h, h * PoolRate(shown));
    BurnedAtBuildRate(units, now, true);
    BurnedOver(units, BuildRate(now), held);
  }

  lemma BurnedOver(units: int, rate: real, held: nat)
    requires rate > 0.0 && units >= 0
    ensures Burned(units, rate, true) > held <==> units as real >= (held + 2) as real * rate
  {
    var u, more := units as real, (held + 2) as real;
    var q := u / rate;
    Ratio(u, rate, q);
    ScaleLess(q, more, rate);
    FloorAtMost(q, more - 1.0, held + 1);
    FloorAtMost(q, more, held + 2);
  }

  /** The least holding that asks for so many units asks for enough to burn more than itself. */
  predicate Overasks(u: int, a: nat, b: nat, decimals: nat, now: Pool)
    requires a > 0
  {
    u as real >= (Least(u, a, b, decimals) + 2) as real * BuildRate(now)
  }

  lemma LeastIsHeld(u: nat, a: nat, b: nat, decimals: nat)
    requires 0 < u <= a
    ensures 0 <= Least(u, a, b, decimals) <= b
  {
    hide Ceil;
    var need, per := Needed(u, b, decimals), Per(a, decimals);
    IntTimes(u, a, b);
    IntTimes(1, u, b);
    NeededIs(u * b, a * b, u, a, b, decimals);
    CeilAtMost(need, per, b);
    CeilAtMost(need, per, -1);
  }

  lemma NeededIs(ub: int, ab: nat, u: int, a: nat, b: nat, decimals: nat)
    requires ub == u * b && ab == a * b && a > 0
    ensures Needed(u, b, decimals) == if decimals < 6 then 2 * ub - b else ub
    ensures b * Per(a, decimals) == if decimals < 6 then 2 * ab else ab
  {
  }

  lemma PositiveUnits(u: int, held: nat, rate: real)
    requires rate > 0.0 && u as real >= (held + 2) as real * rate
    ensures u > 0
  {
    Scaled((held + 2) as real, rate);
  }

  lemma TwoOver(least: int, held: int, rate: real)
    requires least <= held && rate > 0.0
    ensures (least + 2) as real * rate <= (held + 2) as real * rate
  {
    Times((least + 2) as real, (held + 2) as real, rate);
  }

  /** Over the holdings a pool has issued, at any rate: a full withdrawal is safe for all of them exactly when no number
      of units that can be asked for is too many for the least holding that asks for it. */
  lemma SafeWithinIssued(a: nat, b: nat, decimals: nat, now: Pool)
    requires a > 0 && b > 0
    ensures var pool := Pool(a as real, b as real);
            (forall held: nat | held <= b :: FullWithdraw(held, decimals, pool, now) <= held)
            <==> forall u: nat | 0 < u <= a && OnGrid(u, decimals) :: !Overasks(u, a, b, decimals, now)
  {
    hide FullWithdraw, Asked, BuildRate, Least, OnGrid;
    var pool := Pool(a as real, b as real);
    forall u: nat | 0 < u <= a && OnGrid(u, decimals) && Overasks(u, a, b, decimals, now)
      ensures exists held: nat :: held <= b && FullWithdraw(held, decimals, pool, now) > held
    {
      LeastIsHeld(u, a, b, decimals);
      var held: nat := Least(u, a, b, decimals);
      AskedInShares(held, a, b, decimals, u);
      BurnsMore(held, decimals, pool, now);
    }
    forall held: nat | held <= b && FullWithdraw(held, decimals, pool, now) > held
      ensures exists u: nat :: 0 < u <= a && OnGrid(u, decimals) && Overasks(u, a, b, decimals, now)
    {
      BurnsMore(held, decimals, pool, now);
      AskedWithin(held, a, b, decimals);
      AskedOnGrid(held, decimals, pool);
      var u: nat := Asked(held, decimals, pool);
      PositiveUnits(u, held, BuildRate(now));
      AskedInShares(held, a, b, decimals, u);
      TwoOver(Least(u, a, b, decimals), held, BuildRate(now));
      assert Overasks(u, a, b, decimals, now);
    }
  }

  /** While the rate's fall over all the shares issued stays under two shares' worth, rounding included, a full
      withdrawal burns no more than is held. */
  lemma SmallFallIsSafe(held: nat, decimals: nat, shown: Pool, now: Pool)
    requires Live(shown) && held as real <= shown.shares
    ensures var fall, two := PoolRate(shown) - BuildRate(now), 2.0 * BuildRate(now);
            Slack(decimals) < two && shown.shares * fall + Slack(decimals) < two ==>
              FullWithdraw(held, decimals, shown, now) <= held
  {
    hide Asked, PoolRate, BuildRate, FullWithdraw;
    var h, before, rate := held as real, PoolRate(shown), BuildRate(now);
    var worth, fall, more := h * before, before - rate, h + 2.0;
    UnitsAsked(held, decimals, shown, h, worth);
    BurnsMore(held, decimals, shown, now);
    Fallen(h, before, rate, fall, worth);
    TwoMore(h, rate, more);
    FallWithin(h, shown.shares, fall);
  }

  lemma FallWithin(h: real, shares: real, fall: real)
    requires 0.0 <= h <= shares
    ensures h * fall <= 0.0 || h * fall <= shares * fall
  {
    if fall > 0.0 {
      Times(h, shares, fall);
    } else {
      Times(fall, 0.0, h);
    }
  }

  lemma Fallen(h: real, before: real, rate: real, fall: real, worth: real)
    requires fall == before - rate && worth == h * before
    ensures worth == h * rate + h * fall
  {
  }

  /** And once the fall is worth two shares, withdrawing everything the pool has issued burns more than that. */
  lemma FallenRateOverburns(a: nat, b: nat, decimals: nat, now: Pool)
    requires a > 0 && b > 0 && decimals <= 6
    ensures var shown := Pool(a as real, b as real);
            b as real * (PoolRate(shown) - BuildRate(now)) >= 2.0 * BuildRate(now) ==>
              FullWithdraw(b, decimals, shown, now) > b
  {
    hide Asked, PoolRate, BuildRate, FullWithdraw;
    var shown := Pool(a as real, b as real);
    var h, before, rate := b as real, PoolRate(shown), BuildRate(now);
    var worth, fall, more := h * before, before - rate, h + 2.0;
    RatePositive(shown);
    AskedAtLeast(b, decimals, shown, a, h, worth);
    BurnsMore(b, decimals, shown, now);
    Fallen(h, before, rate, fall, worth);
    TwoMore(h, rate, more);
  }

  /** So with six decimals it is safe for every holding issued exactly while the fall stays under two shares' worth. */
  lemma SafeAtSixDecimals(a: nat, b: nat, now: Pool)
    requires a > 0 && b > 0
    ensures var shown := Pool(a as real, b as real);
            (forall held: nat | held <= b :: FullWithdraw(held, 6, shown, now) <= held)
            <==> b as real * (PoolRate(shown) - BuildRate(now)) < 2.0 * BuildRate(now)
  {
    hide PoolRate, BuildRate, FullWithdraw;
    var shown := Pool(a as real, b as real);
    FallenRateOverburns(a, b, 6, now);
    forall held: nat | held <= b
      ensures b as real * (PoolRate(shown) - BuildRate(now)) < 2.0 * BuildRate(now) ==>
                FullWithdraw(held, 6, shown, now) <= held
    {
      SmallFallIsSafe(held, 6, shown, now);
    }
  }

  /** The most units that can be asked for in a pool of `a`. */
  function Top(a: nat, decimals: nat): (top: nat)
    ensures top <= a
  {
    WholePart(a, Grain(decimals))
  }

  function WholePart(a: nat, grain: nat): (whole: nat)
    requires grain > 0
    ensures whole <= a
  {
    a / grain * grain
  }

  lemma TopIsMost(a: nat, decimals: nat, u: int)
    ensures OnGrid(Top(a, decimals), decimals) && (decimals <= 6 ==> Top(a, decimals) == a)
    ensures 0 <= u <= a && OnGrid(u, decimals) ==> u <= Top(a, decimals)
  {
    Multiples(a, Grain(decimals), u);
  }

  lemma Multiples(a: nat, g: nat, u: int)
    requires g > 0
    ensures WholePart(a, g) % g == 0 && (g == 1 ==> WholePart(a, g) == a)
    ensures u <= a && u % g == 0 ==> u <= WholePart(a, g)
  {
    var n, m := a / g, u / g;
    WholeGrains(n, g);
    if u <= a && u % g == 0 {
      assert u == m * g && a < (n + 1) * g;
      IntScaleLess(m, n + 1, g);
      IntTimes(m, n, g);
    }
  }

  /** Units taken for shares are too many for a holding by this much. */
  lemma UnreadOverasks(u: int, a: nat, b: nat, decimals: nat, unread: Pool)
    requires a > 0 && PoolRate(unread) == 0.0
    ensures Overasks(u, a, b, decimals, unread)
            <==> if decimals < 6 then 2 * (u * (a - b)) >= 4 * a - b else u * (a - b) >= 2 * a
  {
    hide PoolRate, Ceil, Needed, Per;
    var least := Least(u, a, b, decimals);
    assert (least + 2) as real * BuildRate(unread) == (least + 2) as real;
    CeilAtMost(Needed(u, b, decimals), Per(a, decimals), u - 2);
    UnreadNeeds(u * b, u * a, u, a, b, decimals);
  }

  lemma UnreadNeeds(ub: int, ua: int, u: int, a: nat, b: nat, decimals: nat)
    requires a > 0 && ub == u * b && ua == u * a
    ensures u * (a - b) == ua - ub
    ensures Needed(u, b, decimals) <= (u - 2) * Per(a, decimals)
            <==> if decimals < 6 then 2 * ub - b <= 2 * ua - 4 * a else ub <= ua - 2 * a
  {
    assert (2 * u - 1) * b == 2 * ub - b;
    assert (u - 2) * a == ua - 2 * a;
    assert (u - 2) * (2 * a) == 2 * ((u - 2) * a);
  }

  lemma MoreUnits(u: nat, top: nat, a: nat, b: nat, decimals: nat)
    requires 0 < u <= top <= a && (decimals < 6 ==> top == a)
    requires if decimals < 6 then 2 * (u * (a - b)) >= 4 * a - b else u * (a - b) >= 2 * a
    ensures top * (a - b) >= 2 * a
  {
    var more := a - b;
    MoreThanNone(u, more, a, b, u * more);
    IntTimes(u, top, more);
    if more >= 2 {
      IntTimes(2, more, a);
      assert decimals < 6 ==> top * more == more * a;
    }
  }

  lemma MoreThanNone(u: nat, more: int, a: nat, b: nat, product: int)
    requires u > 0 && a > 0 && more == a - b && product == u * more
    requires 2 * product >= 4 * a - b || product >= 2 * a
    ensures more > 0
  {
    if more <= 0 {
      Repeated(u, more, product);
      assert false;
    }
  }

  lemma Repeated(u: nat, more: int, product: int)
    requires u > 0 && more <= 0 && product == u * more
    ensures product <= more
  {
  }

  /** With a pool that cannot be read when the withdrawal is built, units are burned as shares: that is safe for every
      holding issued exactly while the pool's whole units are worth less than two shares over its shares; up to six
      decimals, while the units supplied are at most one more than the shares. */
  lemma UnreadPoolSafeExactly(a: nat, b: nat, decimals: nat, unread: Pool)
    requires a > 0 && b > 0 && PoolRate(unread) == 0.0
    ensures var shown := Pool(a as real, b as real);
            var safe := forall held: nat | held <= b :: FullWithdraw(held, decimals, shown, unread) <= held;
            && (safe <==> Top(a, decimals) * (a - b) < 2 * a)
            && (decimals <= 6 ==> (safe <==> a < b + 2))
  {
    hide FullWithdraw, PoolRate, Overasks, OnGrid, Top;
    var top := Top(a, decimals);
    SafeWithinIssued(a, b, decimals, unread);
    TopIsMost(a, decimals, 0);
    if top > 0 {
      UnreadOverasks(top, a, b, decimals, unread);
    }
    forall u: nat | 0 < u <= a && OnGrid(u, decimals) && Overasks(u, a, b, decimals, unread)
      ensures top * (a - b) >= 2 * a
    {
      TopIsMost(a, decimals, u);
      UnreadOverasks(u, a, b, decimals, unread);
      MoreUnits(u, top, a, b, decimals);
    }
    assert a * (a - b) == (a - b) * a;
    IntScaleLess(a - b, 2, a);
  }

  /** However the rate moves, what is burned is worth no more than the holding was at the rate shown, but for half a
      unit of rounding, and one share less. */
  lemma BurnedIsBounded(held: nat, decimals: int, shown: Pool, now: Pool)
    requires Live(shown)
    ensures var burned := FullWithdraw(held, decimals, shown, now);
            && burned >= 0
            && (burned > 0 ==> (burned + 1) as real * BuildRate(now) <= held as real * PoolRate(shown) + 0.5)
  {
    hide PoolRate, BuildRate, UnitsOf, Truncated, Shown, SupplyExchangeRate;
    var h, before, rate := held as real, PoolRate(shown), BuildRate(now);
    var units := Asked(held, decimals, shown);
    var worth := h * before;
    UnitsAsked(held, decimals, shown, h, worth);
    BurnedAtBuildRate(units, now, true);
    var u := units as real;
    var q := u / rate;
    Ratio(u, rate, q);
    var low := q.Floor as real;
    Times(low, q, rate);
  }

  /** Where the pool could not be read when the withdrawal is built, the units themselves are burned as shares: at
      three units a share, a full withdrawal of 100 shares asks for 299. */
  lemma UnreadPoolOverburns()
    ensures FullWithdraw(100, 6, Pool(300.0, 100.0), Pool(0.0, 0.0)) == 299
  {
    var pool := Pool(300.0, 100.0);
    SixIsMicro();
    assert SupplyExchangeRate(pool, 6) == 0.000003;
    assert Shown(100, 0.000003) == 0.0003;
    assert Truncated(0.0003) == 0.0003;
    assert Scale(0.0003, MICRO) == 300;
  }
}
