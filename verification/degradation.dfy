/**
 * The multi-year degradation forecast: year `y` of the analysis period (counted
 * from 0) delivers the first-year yield in MWh times `(1 − rate)^y`, and the
 * cumulative figure is the sum over the period.
 */
module Degradation {
  import opened Series
  import opened RealArith
  import opened PowerChain

  /** `b` raised to the whole power `n`. */
  function Pow(b: real, n: nat): real
  {
    if n == 0 then 1.0 else Pow(b, n - 1) * b
  }

  /** A base in [0,1] keeps every power in [0,1]. */
  lemma {:induction false} PowIsFraction(b: real, n: nat)
    requires 0.0 <= b <= 1.0
    ensures 0.0 <= Pow(b, n) <= 1.0
  {
    if n > 0 {
      PowIsFraction(b, n - 1);
      MulFraction(Pow(b, n - 1), b);
    }
  }

  /** The energy of year `y` of the analysis period (MWh): the first year's, degraded `y` times. */
  function YearEnergy(yieldKwh: real, degRate: real, y: nat): real
  {
    (yieldKwh / 1000.0) * Pow(1.0 - degRate, y)
  }

  /** The forecast list, one MWh value per year of the analysis period. */
  function Forecast(yieldKwh: real, degRate: real, years: nat): (r: seq<real>)
    ensures |r| == years
  {
    seq(years, y requires 0 <= y < years => YearEnergy(yieldKwh, degRate, y))
  }

  /** The cumulative energy over the analysis period (MWh): nothing for no years, the first year's energy for one. */
  function Cumulative(yieldKwh: real, degRate: real, years: nat): (r: real)
    ensures years == 0 ==> r == 0.0
    ensures years == 1 ==> r == yieldKwh / 1000.0
  {
    assert years == 1 ==> && Forecast(yieldKwh, degRate, years)[0] == yieldKwh / 1000.0
                          && Sum(Forecast(yieldKwh, degRate, years)[1..]) == 0.0;
    Sum(Forecast(yieldKwh, degRate, years))
  }

  /** The forecast starts at the first-year yield, converted to MWh and not yet degraded. */
  lemma ForecastStartsAtFirstYear(yieldKwh: real, degRate: real, years: nat)
    requires years >= 1
    ensures Forecast(yieldKwh, degRate, years)[0] == yieldKwh / 1000.0
  {
  }

  /** Each year delivers the previous year's energy less the degradation rate's share of it. */
  lemma ForecastStep(yieldKwh: real, degRate: real, years: nat, y: nat)
    requires y + 1 < years
    ensures Forecast(yieldKwh, degRate, years)[y + 1] == Keep(Forecast(yieldKwh, degRate, years)[y], degRate)
  {
    var first := yieldKwh / 1000.0;
    var p := Pow(1.0 - degRate, y);
    assert Forecast(yieldKwh, degRate, years)[y + 1] == first * (p * (1.0 - degRate));
  }

  /** With a base in [0,1], a higher power is never larger. */
  lemma {:induction false} PowNonIncreasing(b: real, i: nat, j: nat)
    requires 0.0 <= b <= 1.0 && i <= j
    ensures Pow(b, j) <= Pow(b, i)
    decreases j - i
  {
    if i < j {
      PowNonIncreasing(b, i, j - 1);
      var q := Pow(b, j - 1);
      PowIsFraction(b, j - 1);
      MulFraction(q, b);
      assert Pow(b, j) == q * b;
    }
  }

  /** A plant that yields something and degrades at a rate in [0,1] produces less every year, never below zero. */
  lemma ForecastNonIncreasing(yieldKwh: real, degRate: real, years: nat, i: nat, j: nat)
    requires 0.0 <= yieldKwh && 0.0 <= degRate <= 1.0
    requires i <= j < years
    ensures var f := Forecast(yieldKwh, degRate, years);
      0.0 <= f[j] <= f[i] <= yieldKwh / 1000.0
  {
    var b := 1.0 - degRate;
    var first := yieldKwh / 1000.0;
    PowNonIncreasing(b, i, j);
    PowIsFraction(b, i);
    PowIsFraction(b, j);
    var f := Forecast(yieldKwh, degRate, years);
    ScaledEntries(first, Pow(b, i), Pow(b, j), f[i], f[j]);
  }

  /** Two entries that scale ordered fractions by the same non-negative amount keep their order below that amount. */
  lemma ScaledEntries(a: real, hi: real, lo: real, fi: real, fj: real)
    requires 0.0 <= a && 0.0 <= lo <= hi <= 1.0
    requires fi == a * hi && fj == a * lo
    ensures 0.0 <= fj <= fi <= a
  {
    NonNegativeProduct(a, lo);
    MulMonotone(a, lo, hi);
    MulFraction(a, hi);
  }

  /** A longer period extends the forecast by one more degraded year. */
  lemma ForecastExtends(yieldKwh: real, degRate: real, n: nat)
    ensures Forecast(yieldKwh, degRate, n + 1)
         == Forecast(yieldKwh, degRate, n) + [YearEnergy(yieldKwh, degRate, n)]
  {
    SeqExtends(Forecast(yieldKwh, degRate, n + 1), Forecast(yieldKwh, degRate, n), YearEnergy(yieldKwh, degRate, n));
  }

  /** A series that agrees with `s` on its indices and ends in `x` is `s + [x]`. */
  lemma SeqExtends(longer: seq<real>, s: seq<real>, x: real)
    requires |longer| == |s| + 1 && longer[|s|] == x
    requires forall i :: 0 <= i < |s| ==> longer[i] == s[i]
    ensures longer == s + [x]
  {
  }

  /** A longer period adds one more degraded year to the cumulative energy. */
  lemma CumulativeExtends(yieldKwh: real, degRate: real, n: nat)
    ensures Cumulative(yieldKwh, degRate, n + 1)
         == Cumulative(yieldKwh, degRate, n) + YearEnergy(yieldKwh, degRate, n)
  {
    ForecastExtends(yieldKwh, degRate, n);
    SumAppend(Forecast(yieldKwh, degRate, n), YearEnergy(yieldKwh, degRate, n));
  }

  /** One step of the geometric sum: `S·d + a·P·d == a − a·P·(1 − d)` whenever `S·d == a − a·P`. */
  lemma GeometricStep(s: real, a: real, p: real, d: real)
    requires s * d == a * (1.0 - p)
    ensures (s + a * p) * d == a * (1.0 - p * (1.0 - d))
  {
  }

  /**
   * The cumulative energy in closed form: `Cumulative × rate == first × (1 − (1 − rate)^years)`,
   * the sum of a geometric series.
   */
  lemma {:induction false} CumulativeClosedForm(yieldKwh: real, degRate: real, years: nat)
    ensures Cumulative(yieldKwh, degRate, years) * degRate
         == (yieldKwh / 1000.0) * (1.0 - Pow(1.0 - degRate, years))
  {
    var first := yieldKwh / 1000.0;
    var b := 1.0 - degRate;
    if years > 0 {
      var n := years - 1;
      CumulativeClosedForm(yieldKwh, degRate, n);
      CumulativeExtends(yieldKwh, degRate, n);
      GeometricStep(Cumulative(yieldKwh, degRate, n), first, Pow(b, n), degRate);
      assert Pow(b, years) == Pow(b, n) * b;
    }
  }

  /** Without degradation the cumulative energy is the first-year energy once per year. */
  lemma {:induction false} CumulativeWithoutDegradation(yieldKwh: real, years: nat)
    ensures Cumulative(yieldKwh, 0.0, years) == years as real * (yieldKwh / 1000.0)
  {
    var first := yieldKwh / 1000.0;
    if years > 0 {
      var n := years - 1;
      CumulativeWithoutDegradation(yieldKwh, n);
      CumulativeExtends(yieldKwh, 0.0, n);
      PowOfOne(n);
    }
  }

  lemma {:induction false} PowOfOne(n: nat)
    ensures Pow(1.0, n) == 1.0
  {
    if n > 0 {
      PowOfOne(n - 1);
    }
  }

  /**
   * The cumulative energy lies between zero and the undegraded figure
   * `years × first-year energy`, and a positive rate keeps it at most
   * `first / rate` whatever the period.
   */
  lemma CumulativeBounds(yieldKwh: real, degRate: real, years: nat)
    requires 0.0 <= yieldKwh && 0.0 <= degRate <= 1.0
    ensures 0.0 <= Cumulative(yieldKwh, degRate, years) <= years as real * (yieldKwh / 1000.0)
    ensures 0.0 < degRate ==> Cumulative(yieldKwh, degRate, years) * degRate <= yieldKwh / 1000.0
  {
    var f := Forecast(yieldKwh, degRate, years);
    forall i | 0 <= i < years
      ensures 0.0 <= f[i] <= yieldKwh / 1000.0
    {
      ForecastNonIncreasing(yieldKwh, degRate, years, i, i);
    }
    SumNonNegative(f);
    SumAtMostCount(f, yieldKwh / 1000.0);
    CumulativeClosedForm(yieldKwh, degRate, years);
    var p := Pow(1.0 - degRate, years);
    PowIsFraction(1.0 - degRate, years);
    MulFraction(yieldKwh / 1000.0, 1.0 - p);
  }
}
