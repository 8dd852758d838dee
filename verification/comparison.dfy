/**
 * Side-by-side comparison of the active run with a saved scenario's run: the
 * percentage deltas of the KPIs, the performance-ratio difference in points,
 * and the financial figures at a fixed electricity price.
 */
module Comparison {
  import opened Wrappers
  import opened Kpis

  /** Electricity price, $/kWh. */
  const ElectricityPrice: real := 0.12

  /**
   * Percentage change from `current` to `other`. The dashboard divides without a
   * guard; with a zero base the floating-point quotient is infinite or not a
   * number, modelled as `None`.
   */
  function PercentDelta(current: real, other: real): (r: Option<real>)
    ensures r.None? <==> current == 0.0
    ensures r.Some? ==> r.value * current == (other - current) * 100.0
  {
    if current == 0.0 then None else Some(((other - current) / current) * 100.0)
  }

  /** Against a positive base the delta's sign says which value is larger. */
  lemma DeltaSign(current: real, other: real)
    requires current > 0.0
    ensures PercentDelta(current, other).Some?
    ensures PercentDelta(current, other).value > 0.0 <==> other > current
    ensures PercentDelta(current, other).value == 0.0 <==> other == current
    ensures PercentDelta(current, other).value < 0.0 <==> other < current
  {
    var d := PercentDelta(current, other).value;
    assert d * current == (other - current) * 100.0;
    if d > 0.0 {
      assert d * current > 0.0;
    } else if d < 0.0 {
      assert d * current < 0.0;
    }
  }

  /** Everything the comparison view shows. */
  datatype ComparisonFigures = ComparisonFigures(
    yieldDelta: Option<real>,
    specificYieldDelta: Option<real>,
    prDiff: real,
    poaDelta: Option<real>,
    energyDiffMwh: real,
    annualRevenueDiff: real,
    horizonRevenueDiff: real)

  /**
   * The comparison of the active run (`current`, on `currentDcKw`) with a saved
   * scenario's run (`other`, on `otherDcKw`) over the active analysis period.
   */
  function Compare(current: RunFigures, currentDcKw: real, other: RunFigures, otherDcKw: real, years: int): (c: ComparisonFigures)
    requires currentDcKw > 0.0 && otherDcKw > 0.0
    ensures c.energyDiffMwh * 1000.0 == other.yieldKwh - current.yieldKwh
    ensures c.yieldDelta.None? <==> current.yieldKwh == 0.0
    ensures c.specificYieldDelta.None? <==> current.yieldKwh == 0.0
    ensures c.poaDelta.None? <==> current.poaKwhM2 == 0.0
  {
    ZeroQuotient(current.yieldKwh, currentDcKw, SpecificYield(current.yieldKwh, currentDcKw));
    var annual := (other.yieldKwh - current.yieldKwh) * ElectricityPrice;
    ComparisonFigures(
      PercentDelta(current.yieldKwh, other.yieldKwh),
      PercentDelta(SpecificYield(current.yieldKwh, currentDcKw), SpecificYield(other.yieldKwh, otherDcKw)),
      other.pr - current.pr,
      PercentDelta(current.poaKwhM2, other.poaKwhM2),
      (other.yieldKwh - current.yieldKwh) / 1000.0,
      annual,
      annual * years as real)
  }

  /**
   * The financial figures follow the energy difference: the annual revenue
   * difference is the energy difference priced at $0.12/kWh, it has the sign of
   * the yield delta, and the horizon figure is the annual one once per year,
   * without degradation or discounting.
   */
  lemma RevenueFollowsEnergy(current: RunFigures, currentDcKw: real, other: RunFigures, otherDcKw: real, years: int)
    requires currentDcKw > 0.0 && otherDcKw > 0.0
    ensures var c := Compare(current, currentDcKw, other, otherDcKw, years);
      && c.annualRevenueDiff == c.energyDiffMwh * 1000.0 * ElectricityPrice
      && (c.annualRevenueDiff > 0.0 <==> other.yieldKwh > current.yieldKwh)
      && (c.annualRevenueDiff == 0.0 <==> other.yieldKwh == current.yieldKwh)
      && c.horizonRevenueDiff == c.annualRevenueDiff * years as real
      && (current.yieldKwh > 0.0 ==> (c.yieldDelta.value > 0.0 <==> c.annualRevenueDiff > 0.0))
  {
    if current.yieldKwh > 0.0 {
      DeltaSign(current.yieldKwh, other.yieldKwh);
    }
  }

  /**
   * Swapping the two runs negates every difference: the PR points, the energy
   * and both revenue figures.
   */
  lemma SwapNegates(current: RunFigures, currentDcKw: real, other: RunFigures, otherDcKw: real, years: int)
    requires currentDcKw > 0.0 && otherDcKw > 0.0
    ensures var c := Compare(current, currentDcKw, other, otherDcKw, years);
      var s := Compare(other, otherDcKw, current, currentDcKw, years);
      && s.prDiff == -c.prDiff
      && s.energyDiffMwh == -c.energyDiffMwh
      && s.annualRevenueDiff == -c.annualRevenueDiff
      && s.horizonRevenueDiff == -c.horizonRevenueDiff
  {
  }

  /**
   * On equal DC capacities the specific-yield delta is the yield delta: the
   * capacity cancels out of the ratio.
   */
  lemma EqualCapacitySpecificDelta(current: RunFigures, other: RunFigures, dcKw: real, years: int)
    requires dcKw > 0.0
    ensures var c := Compare(current, dcKw, other, dcKw, years);
      c.specificYieldDelta == c.yieldDelta
  {
    var a := SpecificYield(current.yieldKwh, dcKw);
    var b := SpecificYield(other.yieldKwh, dcKw);
    assert a * dcKw == current.yieldKwh && b * dcKw == other.yieldKwh;
    if current.yieldKwh != 0.0 {
      assert a != 0.0;
      var d := PercentDelta(a, b).value;
      var e := PercentDelta(current.yieldKwh, other.yieldKwh).value;
      assert d * a == (b - a) * 100.0;
      assert e * (a * dcKw) == (b - a) * dcKw * 100.0;
      assert e * a * dcKw == d * a * dcKw;
      CancelNonZero(e, d, a * dcKw);
    } else {
      assert a == 0.0;
    }
  }

  /** A quotient by a positive divisor is zero exactly when the dividend is. */
  lemma ZeroQuotient(n: real, k: real, q: real)
    requires k > 0.0 && q * k == n
    ensures q == 0.0 <==> n == 0.0
  {
    if q != 0.0 {
      assert q * k != 0.0;
    }
  }

  /** Cancelling a non-zero factor. */
  lemma CancelNonZero(x: real, y: real, k: real)
    requires k != 0.0 && x * k == y * k
    ensures x == y
  {
    assert (x - y) * k == 0.0;
  }

  /**
   * Comparing a run with itself shows no change: every difference is zero and
   * every percentage delta over a non-zero base is 0%.
   */
  lemma SelfComparisonIsNeutral(k: RunFigures, dcKw: real, years: int)
    requires dcKw > 0.0
    ensures var c := Compare(k, dcKw, k, dcKw, years);
      && c.prDiff == 0.0 && c.energyDiffMwh == 0.0
      && c.annualRevenueDiff == 0.0 && c.horizonRevenueDiff == 0.0
      && (k.yieldKwh != 0.0 ==> c.yieldDelta == Some(0.0) && c.specificYieldDelta == Some(0.0))
      && (k.poaKwhM2 != 0.0 ==> c.poaDelta == Some(0.0))
  {
    EqualCapacitySpecificDelta(k, k, dcKw, years);
  }
}
