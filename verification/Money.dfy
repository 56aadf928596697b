/**
 Fixed-point money. Amounts are whole numbers of 0.0001 currency units and rates are whole numbers
 of 1e-12 units; a stored transfer keeps its rate to 8 decimals only.
 */
module Money {

  const RATE_UNIT: int := 1_000_000_000_000
  /** One unit of the eighth decimal, the finest a stored rate keeps. */
  const STORED_RATE_STEP: int := 10_000
  /** 1%, as the deviation check measures it: in 0.0001 percentage points. */
  const MAX_DEVIATION: int := 10_000

  /** What one conversion costs and yields, in 0.0001 units. */
  datatype Amounts = Amounts(sendingFee: int, gross: int, receivingFee: int, net: int, cost: int)

  function Abs(x: int): nat {
    if x < 0 then -x else x
  }

  /** The whole number nearest to n/d; a tie goes away from zero (ROUND_HALF_UP). */
  function HalfUp(n: int, d: int): int
    requires d > 0
  {
    if n >= 0 then (2 * n + d) / (2 * d) else -((-2 * n + d) / (2 * d))
  }

  lemma HalfUpIsNearest(n: int, d: int)
    requires d > 0
    ensures var q := HalfUp(n, d);
            if n >= 0 then q >= 0 && -d < 2 * (q * d - n) <= d else q <= 0 && -d <= 2 * (q * d - n) < d
  {
    DivBounds(if n >= 0 then 2 * n + d else -2 * n + d, 2 * d);
  }

  /** The whole number nearest to n/d; a tie goes to the even neighbour (Decimal's default). */
  function HalfEven(n: int, d: int): int
    requires d > 0
  {
    var q, r := n / d, n % d;
    if 2 * r < d || (2 * r == d && q % 2 == 0) then q else q + 1
  }

  lemma HalfEvenIsNearest(n: int, d: int)
    requires d > 0
    ensures var q := HalfEven(n, d);
            && -d <= 2 * (q * d - n) <= d
            && (2 * (q * d - n) == d || 2 * (q * d - n) == -d ==> q % 2 == 0)
            && (n >= 0 ==> q >= 0)
  {
    DivBounds(n, d);
  }

  lemma DivBounds(n: int, d: int)
    requires d > 0
    ensures (n / d) * d <= n < (n / d) * d + d
    ensures n % d == n - (n / d) * d
    ensures n >= 0 ==> n / d >= 0
  {
    assert n == (n / d) * d + n % d;
  }

  lemma MulMono(x: int, y: int, c: int)
    requires x <= y && c >= 0
    ensures x * c <= y * c
  {
  }

  /** A multiple of d less than d away from another multiple is that multiple. */
  lemma SameMultiple(x: int, y: int, d: int)
    requires d > 0 && -d < x * d - y * d < d
    ensures x == y
  {
    if x < y { MulMono(x + 1, y, d); } else if y < x { MulMono(y + 1, x, d); }
  }

  lemma NearestInOrder(p: int, m: int, q: int, n: int, d: int)
    requires d > 0 && m <= n
    requires 2 * (p * d - m) <= d && -d <= 2 * (q * d - n)
    requires 2 * (p * d - m) < d || -d < 2 * (q * d - n)
    ensures p <= q
  {
    if p > q { MulMono(q + 1, p, d); }
  }

  /** Rounding to the nearest keeps order. */
  lemma HalfUpMonotone(m: int, n: int, d: int)
    requires d > 0 && m <= n
    ensures HalfUp(m, d) <= HalfUp(n, d)
  {
    hide HalfUp;
    HalfUpIsNearest(m, d);
    HalfUpIsNearest(n, d);
    if (m < 0) == (n < 0) {
      NearestInOrder(HalfUp(m, d), m, HalfUp(n, d), n, d);
    }
  }

  lemma HalfUpExact(k: int, d: int)
    requires d > 0
    ensures HalfUp(k * d, d) == k
  {
    hide HalfUp;
    HalfUpIsNearest(k * d, d);
    SameMultiple(HalfUp(k * d, d), k, d);
  }

  lemma HalfEvenExact(k: int, d: int)
    requires d > 0
    ensures HalfEven(k * d, d) == k
  {
    hide HalfEven;
    HalfEvenIsNearest(k * d, d);
    SameMultiple(HalfEven(k * d, d), k, d);
  }

  /** The two rounding modes differ only on ties, and then by one. */
  lemma RoundingModesDiffer(n: int, d: int)
    requires d > 0
    ensures Abs(HalfUp(n, d) - HalfEven(n, d)) <= 1
    ensures HalfUp(n, d) != HalfEven(n, d) ==> (2 * n) % d == 0
  {
    hide HalfUp, HalfEven;
    HalfUpIsNearest(n, d);
    HalfEvenIsNearest(n, d);
    TwoNearest(HalfUp(n, d), HalfEven(n, d), n, d);
  }

  lemma TwoNearest(p: int, q: int, n: int, d: int)
    requires d > 0 && -d <= 2 * (p * d - n) <= d && -d <= 2 * (q * d - n) <= d
    ensures Abs(p - q) <= 1
    ensures p != q ==> (2 * n) % d == 0
  {
    if p < q {
      NearestGap(p, q, n, d);
    } else if q < p {
      NearestGap(q, p, n, d);
    }
  }

  lemma NearestGap(p: int, q: int, n: int, d: int)
    requires d > 0 && p < q && 2 * (n - p * d) <= d && 2 * (q * d - n) <= d
    ensures q == p + 1 && (2 * n) % d == 0
  {
    if q > p + 1 { MulMono(p + 2, q, d); }
    assert 2 * n == (2 * p + 1) * d;
    DivBounds(2 * n, d);
    SameMultiple((2 * n) / d, 2 * p + 1, d);
  }

  /** Rounding a whole number of units changes nothing. */
  function Quantize(x: int): (r: int)
    ensures r == x
  {
    HalfUpExact(x, 1);
    HalfUp(x, 1)
  }

  /** The fees and amounts of a cross-currency transfer of `amount` at `rate`. */
  function CalculateAmounts(amount: int, rate: int): (a: Amounts)
    ensures a.net + a.receivingFee == a.gross && a.cost == amount + a.sendingFee
  {
    var sendingFee := SendingFee(amount);
    var gross := HalfUp(amount * rate, RATE_UNIT);
    var receivingFee := HalfUp(gross * 3, 1000);
    Amounts(sendingFee, gross, receivingFee, Quantize(gross - receivingFee), Quantize(amount + sendingFee))
  }

  /** 0.5% of the amount sent. */
  function SendingFee(amount: int): int {
    HalfUp(amount * 5, 1000)
  }

  /** Fees never turn a positive amount into a loss for either side. */
  lemma AmountsInRange(amount: int, rate: int)
    requires amount >= 0 && rate >= 0
    ensures var a := CalculateAmounts(amount, rate);
            0 <= a.sendingFee && amount <= a.cost && 0 <= a.receivingFee <= a.gross && 0 <= a.net <= a.gross
  {
    hide HalfUp;
    MulMono(0, amount, rate);
    HalfUpIsNearest(amount * 5, 1000);
    HalfUpIsNearest(amount * rate, RATE_UNIT);
    HalfUpIsNearest(HalfUp(amount * rate, RATE_UNIT) * 3, 1000);
  }

  /** The credited amount after the receiving fee, as a function of the converted amount. */
  function NetOf(gross: int): int {
    gross - HalfUp(gross * 3, 1000)
  }

  /** The receiving fee grows more slowly than the converted amount: net is monotone and never outruns gross. */
  lemma NetIsMonotone(g: int, h: int)
    requires g <= h
    ensures 0 <= NetOf(h) - NetOf(g) <= h - g
  {
    hide HalfUp;
    HalfUpMonotone(g * 3, h * 3, 1000);
    HalfUpIsNearest(g * 3, 1000);
    HalfUpIsNearest(h * 3, 1000);
    if g < h {
      var p, q := HalfUp(g * 3, 1000), HalfUp(h * 3, 1000);
      assert 2 * 1000 * (q - p) <= 6 * (h - g) + 2000;
      assert q - p <= h - g;
    }
  }

  /** Sending more at the same rate never credits less. */
  lemma NetMonotoneInAmount(small: int, large: int, rate: int)
    requires small <= large && rate >= 0
    ensures CalculateAmounts(small, rate).net <= CalculateAmounts(large, rate).net
  {
    hide HalfUp, Quantize;
    MulMono(small, large, rate);
    HalfUpMonotone(small * rate, large * rate, RATE_UNIT);
    NetIsMonotone(HalfUp(small * rate, RATE_UNIT), HalfUp(large * rate, RATE_UNIT));
  }

  // ---- splitting an amount -------------------------------------------------------------------

  function Sum(parts: seq<int>): int {
    if parts == [] then 0 else parts[0] + Sum(parts[1..])
  }

  function SumOfFees(parts: seq<int>): int {
    if parts == [] then 0 else SendingFee(parts[0]) + SumOfFees(parts[1..])
  }

  lemma {:induction false} SumOfFeesNearFivePerMille(parts: seq<int>)
    ensures 2 * Abs(1000 * SumOfFees(parts) - 5 * Sum(parts)) <= 1000 * |parts|
  {
    hide HalfUp;
    if parts != [] {
      HalfUpIsNearest(parts[0] * 5, 1000);
      SumOfFeesNearFivePerMille(parts[1..]);
    }
  }

  /** Sending an amount in n parts changes the total sending fee by at most (n + 1) / 2 units. */
  lemma SplittingBarelyChangesFee(parts: seq<int>)
    ensures 2 * Abs(SumOfFees(parts) - SendingFee(Sum(parts))) <= |parts| + 1
  {
    hide HalfUp;
    HalfUpIsNearest(Sum(parts) * 5, 1000);
    SumOfFeesNearFivePerMille(parts);
  }

  // ---- confirmation of a previewed rate ------------------------------------------------------

  /** The move from the previewed to the current rate, in 0.0001 percentage points. */
  function DeviationPct(preview: int, current: int): int
    requires preview != 0
  {
    var n := Abs(current - preview) * 1_000_000;
    if preview > 0 then HalfUp(n, preview) else HalfUp(-n, -preview)
  }

  /** The confirmation check lets a zero preview rate through unexamined. */
  predicate RateConfirmed(preview: int, current: int) {
    preview == 0 || DeviationPct(preview, current) <= MAX_DEVIATION
  }

  /** For a positive preview rate the check is a bound of just under 1.00005%. */
  lemma ConfirmedIffClose(preview: int, current: int)
    requires preview > 0
    ensures RateConfirmed(preview, current) <==> 2_000_000 * Abs(current - preview) < 20_001 * preview
  {
    hide HalfUp;
    var n := Abs(current - preview) * 1_000_000;
    var q := HalfUp(n, preview);
    HalfUpIsNearest(n, preview);
    if q <= MAX_DEVIATION { MulMono(q, MAX_DEVIATION, preview); } else { MulMono(MAX_DEVIATION + 1, q, preview); }
  }

  /** Any other preview rate confirms every current rate: zero is let through and a negative one turns the deviation negative. */
  lemma ConfirmsAllIffNotPositive(preview: int)
    ensures (forall current: int :: RateConfirmed(preview, current)) <==> preview <= 0
  {
    if preview > 0 {
      ConfirmedIffClose(preview, 3 * preview);
      assert !RateConfirmed(preview, 3 * preview);
    }
  }

  /**
   A confirmed transfer credits what was previewed, up to 1.00005% of the previewed conversion plus
   1.0050005 units: both conversions and both receiving fees are rounded on the way.
   */
  lemma ExecutedNetNearPreview(amount: int, preview: int, current: int)
    requires amount >= 0 && preview > 0 && RateConfirmed(preview, current)
    ensures var quoted, executed := CalculateAmounts(amount, preview), CalculateAmounts(amount, current);
            2_000_000 * Abs(executed.net - quoted.net) <= 20_001 * quoted.gross + 2_010_001
  {
    hide HalfUp, Quantize, DeviationPct;
    var x, y := amount * preview, amount * current;
    HalfUpIsNearest(x, RATE_UNIT);
    HalfUpIsNearest(y, RATE_UNIT);
    MulMono(0, amount, preview);
    var g, h := HalfUp(x, RATE_UNIT), HalfUp(y, RATE_UNIT);
    ConfirmedIffClose(preview, current);
    ScaleGap(amount, preview, current);
    assert 2 * Abs(RATE_UNIT * (h - g)) <= 2 * Abs(y - x) + 2 * RATE_UNIT;
    assert 2 * x <= 2 * RATE_UNIT * g + RATE_UNIT;
    assert 2_000_000 * Abs(h - g) <= 20_001 * g + 2_010_001;
    if g <= h { NetIsMonotone(g, h); } else { NetIsMonotone(h, g); }
  }

  lemma AbsOfProduct(amount: int, x: int, y: int)
    requires amount >= 0
    ensures Abs(amount * y - amount * x) == amount * Abs(y - x)
  {
    assert amount * y - amount * x == amount * (y - x);
    if y < x {
      assert amount * (y - x) == -(amount * (x - y));
      MulMono(0, amount, x - y);
    } else {
      MulMono(0, amount, y - x);
    }
  }

  lemma ScaleGap(amount: int, preview: int, current: int)
    requires amount >= 0 && 2_000_000 * Abs(current - preview) <= 20_001 * preview
    ensures 2_000_000 * Abs(amount * current - amount * preview) <= 20_001 * (amount * preview)
  {
    var gap := Abs(current - preview);
    AbsOfProduct(amount, preview, current);
    MulMono(2_000_000 * gap, 20_001 * preview, amount);
    assert (2_000_000 * gap) * amount == 2_000_000 * (amount * gap);
    assert (20_001 * preview) * amount == 20_001 * (amount * preview);
  }

  /** What a confirmed transfer's sender is promised about the net amount. */
  ghost predicate NetNearPreview(amount: int, preview: int, current: int) {
    var quoted, executed := CalculateAmounts(amount, preview), CalculateAmounts(amount, current);
    2_000_000 * Abs(executed.net - quoted.net) <= 20_001 * quoted.gross + 2_010_001
  }

  /** The promise holds for all amounts and all confirmed current rates exactly when the preview rate is positive. */
  lemma NetNearPreviewIffPositive(preview: int)
    ensures (forall amount: int, current: int :: amount >= 0 && RateConfirmed(preview, current) ==> NetNearPreview(amount, preview, current))
       <==> preview > 0
  {
    if preview > 0 {
      forall amount: int, current: int | amount >= 0 && RateConfirmed(preview, current) ensures NetNearPreview(amount, preview, current) {
        ExecutedNetNearPreview(amount, preview, current);
      }
    } else {
      ConfirmsAllIffNotPositive(preview);
      if preview == 0 {
        ZeroPreviewBreaksPromise();
        assert RateConfirmed(preview, 7 * RATE_UNIT);
      } else {
        NegativePreviewBreaksPromise(preview);
        assert RateConfirmed(preview, preview);
      }
    }
  }

  /** One unit of currency previewed at zero and executed at seven. */
  lemma ZeroPreviewBreaksPromise()
    ensures !NetNearPreview(10_000, 0, 7 * RATE_UNIT)
  {
    hide Quantize;
    assert HalfUp(0, RATE_UNIT) == 0;
    HalfUpExact(70_000, RATE_UNIT);
  }

  /** A negative preview rate promises a negative tolerance, which not even the previewed rate itself keeps. */
  lemma NegativePreviewBreaksPromise(preview: int)
    requires preview < 0
    ensures !NetNearPreview(1000 * RATE_UNIT, preview, preview)
  {
    hide Quantize;
    HalfUpExact(1000 * preview, RATE_UNIT);
    assert (1000 * RATE_UNIT) * preview == (1000 * preview) * RATE_UNIT;
  }

  // ---- replaying a stored transfer -----------------------------------------------------------

  /** The rate as the transfers table keeps it, in 1e-8 units. */
  function StoredRate(rate: int): int {
    HalfUp(rate, STORED_RATE_STEP)
  }

  /** The converted amount a replay recomputes from the stored row. */
  function ReplayedGross(amount: int, rate: int): int {
    HalfUp(amount * (StoredRate(rate) * STORED_RATE_STEP), RATE_UNIT)
  }

  lemma LongAmountShowsLoss(rate: int)
    ensures CalculateAmounts(RATE_UNIT, rate).gross == rate
    ensures ReplayedGross(RATE_UNIT, rate) == StoredRate(rate) * STORED_RATE_STEP
  {
    hide HalfUp, Quantize;
    HalfUpExact(StoredRate(rate) * STORED_RATE_STEP, RATE_UNIT);
    HalfUpExact(rate, RATE_UNIT);
    assert RATE_UNIT * rate == rate * RATE_UNIT;
    assert RATE_UNIT * (StoredRate(rate) * STORED_RATE_STEP) == (StoredRate(rate) * STORED_RATE_STEP) * RATE_UNIT;
  }

  /** Replays report the original converted amount for every amount exactly when the rate has 8 decimals. */
  lemma ReplayGrossFaithfulIff(rate: int)
    ensures (forall amount: int :: ReplayedGross(amount, rate) == CalculateAmounts(amount, rate).gross)
       <==> rate % STORED_RATE_STEP == 0
  {
    if rate % STORED_RATE_STEP == 0 {
      HalfUpExact(rate / STORED_RATE_STEP, STORED_RATE_STEP);
      assert StoredRate(rate) * STORED_RATE_STEP == rate;
    } else {
      LongAmountShowsLoss(rate);
    }
  }

  /** Rounding two numbers moves them at most one unit further apart. */
  lemma RoundedGap(x: int, y: int)
    ensures RATE_UNIT * (Abs(HalfUp(y, RATE_UNIT) - HalfUp(x, RATE_UNIT)) - 1) <= Abs(y - x)
    ensures Abs(y - x) > RATE_UNIT ==> HalfUp(y, RATE_UNIT) != HalfUp(x, RATE_UNIT)
  {
    hide HalfUp;
    HalfUpIsNearest(x, RATE_UNIT);
    HalfUpIsNearest(y, RATE_UNIT);
  }

  /** Storing the rate moves it by at most half a unit of the eighth decimal. */
  lemma StoredRateGap(rate: int)
    ensures Abs(StoredRate(rate) * STORED_RATE_STEP - rate) <= 5_000
  {
    HalfUpIsNearest(rate, STORED_RATE_STEP);
  }

  /** For a single amount, the replay is off by at most one unit and one more for every 200 million units sent. */
  lemma ReplayGrossNear(amount: int, rate: int)
    requires amount >= 0
    ensures 200_000_000 * (Abs(ReplayedGross(amount, rate) - CalculateAmounts(amount, rate).gross) - 1) <= amount
  {
    hide HalfUp, Quantize, StoredRate, Abs;
    var kept := StoredRate(rate) * STORED_RATE_STEP;
    RoundedGap(amount * rate, amount * kept);
    AbsOfProduct(amount, rate, kept);
    StoredRateGap(rate);
    MulMono(Abs(kept - rate), 5_000, amount);
  }

  /** It is off whenever what the stored rate lost makes more than a whole unit of the amount. */
  lemma ReplayGrossOff(amount: int, rate: int)
    requires amount >= 0 && amount * Abs(StoredRate(rate) * STORED_RATE_STEP - rate) > RATE_UNIT
    ensures ReplayedGross(amount, rate) != CalculateAmounts(amount, rate).gross
  {
    hide HalfUp, Quantize, StoredRate, Abs;
    var kept := StoredRate(rate) * STORED_RATE_STEP;
    RoundedGap(amount * rate, amount * kept);
    AbsOfProduct(amount, rate, kept);
  }
}
