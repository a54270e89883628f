/**
 * The three figures the dashboard derives from the baseline facts and the
 * current parameter record: initial equity, monthly change and future equity
 * share. They are recomputed from the state on every render.
 */
module Derivations {
  import opened Wrappers
  import opened DealParams

  /** The fixed facts about the current mortgage. */
  datatype Baseline = Baseline(currentPayment: int, currentLoanBalance: int)

  /** The baseline the dashboard starts with and never changes. */
  const Startup: Baseline := Baseline(2400, 343000)

  /** Purchase price minus loan balance, not clamped at zero. */
  function InitialEquity(b: Baseline, p: Params): int
  {
    p.purchasePrice - b.currentLoanBalance
  }

  /** Rent minus current payment, signed. */
  function MonthlyChange(b: Baseline, p: Params): int
  {
    p.initialRent - b.currentPayment
  }

  /** Whether the monthly change gets the "increase" styling. */
  predicate IsIncrease(b: Baseline, p: Params)
  {
    p.initialRent > b.currentPayment
  }

  /** The counter-party's share of the appreciation, in exact arithmetic. */
  function FutureEquityShare(p: Params): real
  {
    (p.marketValue - p.purchasePrice) as real * (p.equitySplitPercent as real / 100.0)
  }

  /** Initial equity is negative exactly when the price is below the loan balance. */
  lemma InitialEquitySign(b: Baseline, p: Params)
    ensures InitialEquity(b, p) < 0 <==> p.purchasePrice < b.currentLoanBalance
    ensures InitialEquity(b, p) + b.currentLoanBalance == p.purchasePrice
  {
  }

  /**
   * The increase styling applies exactly when the monthly change is positive;
   * a rent equal to the payment gets the non-increase styling.
   */
  lemma IncreaseIffPositiveChange(b: Baseline, p: Params)
    ensures IsIncrease(b, p) <==> MonthlyChange(b, p) > 0
    ensures p.initialRent == b.currentPayment ==> MonthlyChange(b, p) == 0 && !IsIncrease(b, p)
  {
  }

  /** With no split there is no future share. */
  lemma FutureShareZeroSplit(p: Params)
    requires p.equitySplitPercent == 0
    ensures FutureEquityShare(p) == 0.0
  {
  }

  /**
   * With a split between 0 and 100 percent the share has the sign of the
   * appreciation and at most its magnitude.
   */
  lemma FutureShareBounded(p: Params)
    requires 0 <= p.equitySplitPercent <= 100
    ensures var d := (p.marketValue - p.purchasePrice) as real;
            if d >= 0.0 then 0.0 <= FutureEquityShare(p) <= d
            else d <= FutureEquityShare(p) <= 0.0
  {
    var d := (p.marketValue - p.purchasePrice) as real;
    var f := p.equitySplitPercent as real / 100.0;
    assert 0.0 <= f <= 1.0;
    assert FutureEquityShare(p) == d * f;
    if d >= 0.0 {
      assert d * f <= d * 1.0;
    } else {
      assert d * 1.0 <= d * f;
    }
  }

  /**
   * In every record the dashboard can hold, the share is a whole number of
   * dollars: the appreciation is a multiple of 1000 and the split a multiple
   * of 5, so their product is divisible by 100.
   */
  lemma FutureShareWhole(p: Params)
    requires InBounds(p)
    ensures (p.marketValue - p.purchasePrice) * p.equitySplitPercent % 100 == 0
    ensures FutureEquityShare(p) == ((p.marketValue - p.purchasePrice) * p.equitySplitPercent / 100) as real
  {
    assert OnGrid(p.purchasePrice, 340000, 600000, 5000);
    assert OnGrid(p.equitySplitPercent, 0, 100, 5);
    ShareOfThousandsAtFivePercentSteps(p.marketValue - p.purchasePrice, p.equitySplitPercent);
  }

  /** A whole number of thousands at a multiple of 5 percent is a whole number. */
  lemma ShareOfThousandsAtFivePercentSteps(d: int, split: int)
    requires d % 1000 == 0 && split % 5 == 0
    ensures d * split % 100 == 0
    ensures d as real * (split as real / 100.0) == (d * split / 100) as real
  {
    var a, j := d / 1000, split / 5;
    assert d == 1000 * a && split == 5 * j;
    var n := 50 * (a * j);
    assert d * split == 100 * n by {
      assert (1000 * a) * (5 * j) == 5000 * (a * j);
    }
    assert (a * j) as real == a as real * j as real;
    calc {
      d as real * (split as real / 100.0);
      1000.0 * a as real * (5.0 * j as real / 100.0);
      50.0 * (a as real * j as real);
      n as real;
    }
  }

  /**
   * The range each figure can take in a record within bounds: equity from
   * -3000 (a 340000 price against the 343000 balance) up, monthly change in
   * whole hundreds.
   */
  lemma MetricsInBounds(p: Params)
    requires InBounds(p)
    ensures -3000 <= InitialEquity(Startup, p) <= 257000
    ensures -500 <= MonthlyChange(Startup, p) <= 2100
    ensures MonthlyChange(Startup, p) % 100 == 0
  {
  }

  /** The figures for any record holding the equity-share preset, as after its activation. */
  lemma EquitySharePresetMetrics(p: Params)
    requires MatchesPreset(p, EquityShare)
    ensures InitialEquity(Startup, p) == -3000
    ensures MonthlyChange(Startup, p) == -400
    ensures !IsIncrease(Startup, p)
    ensures FutureEquityShare(p) == 90000.0
  {
    assert p.purchasePrice == 340000 && p.initialRent == 2000;
    assert p.marketValue == 520000 && p.equitySplitPercent == 50;
  }

  /** The figures for any record holding the subject-to preset, as after its activation. */
  lemma SubjectToPresetMetrics(p: Params)
    requires MatchesPreset(p, SubjectTo)
    ensures InitialEquity(Startup, p) == 177000
    ensures MonthlyChange(Startup, p) == 0
    ensures !IsIncrease(Startup, p)
    ensures FutureEquityShare(p) == 0.0
  {
    assert p.purchasePrice == 520000 && p.initialRent == 2400;
    assert p.equitySplitPercent == 0;
  }
}
