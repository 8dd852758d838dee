/**
 * Yield KPIs of one simulation run: annual plane-of-array irradiation, first-year
 * yield, performance ratio, specific yield, and the calendar-month table.
 */
module Kpis {
  import opened Wrappers
  import opened Series
  import opened PowerChain
  import opened RealArith

  /**
   * Annual plane-of-array irradiation (kWh/m²): the hourly W/m² values summed
   * and divided by 1000. Non-negative hourly irradiance gives a non-negative total.
   */
  function AnnualPoa(hours: seq<Hour>): (r: real)
    ensures (forall i :: 0 <= i < |hours| ==> 0.0 <= hours[i].poa) ==> 0.0 <= r
  {
    PoaNonNegative(hours);
    Sum(PoaSeries(hours)) / 1000.0
  }

  lemma PoaNonNegative(hours: seq<Hour>)
    ensures (forall i :: 0 <= i < |hours| ==> 0.0 <= hours[i].poa) ==> 0.0 <= Sum(PoaSeries(hours))
  {
    if forall i :: 0 <= i < |hours| ==> 0.0 <= hours[i].poa {
      SumNonNegative(PoaSeries(hours));
    }
  }

  /**
   * Performance ratio (%): yield over the energy the rated array would deliver
   * under the measured irradiation. Reported as 0 when that reference is not
   * positive.
   */
  function PerformanceRatio(yieldKwh: real, poaKwhM2: real, dcKw: real): (pr: real)
    ensures poaKwhM2 * dcKw <= 0.0 ==> pr == 0.0
    ensures poaKwhM2 * dcKw > 0.0 ==> pr * (poaKwhM2 * dcKw) == yieldKwh * 100.0
  {
    var reference := poaKwhM2 * dcKw;
    if reference > 0.0 then (yieldKwh / reference) * 100.0 else 0.0
  }

  /** Specific yield (kWh/kWp). The sidebar keeps the DC capacity at 0.1 kWp or more. */
  function SpecificYield(yieldKwh: real, dcKw: real): (sy: real)
    requires dcKw > 0.0
    ensures sy * dcKw == yieldKwh
  {
    yieldKwh / dcKw
  }

  /** The headline figures of a run. */
  datatype RunFigures = RunFigures(poaKwhM2: real, yieldKwh: real, pr: real)

  /**
   * The same three formulas serve the active run and the compared run: the
   * annual irradiation, the first-year yield, and the PR that relates them.
   */
  function AnnualKpis(p: Plant, hours: seq<Hour>): (k: RunFigures)
    ensures k.poaKwhM2 == AnnualPoa(hours) && k.yieldKwh == AnnualYield(p, hours)
    ensures k.poaKwhM2 * p.dcKw > 0.0 ==> k.pr * (k.poaKwhM2 * p.dcKw) == k.yieldKwh * 100.0
    ensures k.poaKwhM2 * p.dcKw <= 0.0 ==> k.pr == 0.0
  {
    var poa := AnnualPoa(hours);
    var y := AnnualYield(p, hours);
    RunFigures(poa, y, PerformanceRatio(y, poa, p.dcKw))
  }

  /**
   * Every hour has non-negative irradiance, and every lit hour has a cell
   * temperature where the derating factor lies in [0,1]. Dark hours may be at
   * any temperature: they contribute nothing.
   */
  predicate WarmWhenLit(hours: seq<Hour>)
  {
    forall i :: 0 <= i < |hours| ==> WarmIfLit(hours[i])
  }

  predicate WarmIfLit(h: Hour)
  {
    0.0 <= h.poa && (0.0 < h.poa ==> RefCellTemp <= h.cellTemp <= RefCellTemp + 1.0 / TempCoeff)
  }

  lemma DerateIsFraction(cellTemp: real)
    requires RefCellTemp <= cellTemp <= RefCellTemp + 1.0 / TempCoeff
    ensures 0.0 <= Derate(cellTemp) <= 1.0
  {
  }

  lemma Rescale(x: real, k: real)
    ensures (x / 1000.0) * k == x * (k / 1000.0)
  {
  }

  lemma DeratedAtMostRated(poa: real, dcKw: real, derate: real)
    requires 0.0 <= poa && 0.0 <= dcKw && 0.0 <= derate <= 1.0
    ensures 0.0 <= (poa / StcIrradiance) * dcKw * derate <= poa * (dcKw / 1000.0)
  {
    var rated := (poa / StcIrradiance) * dcKw;
    Rescale(poa, dcKw);
    MulFraction(rated, derate);
  }

  /** An hour's raw DC power lies between zero and the rated power under its irradiance. */
  lemma RawAtMostRated(p: Plant, h: Hour)
    requires 0.0 <= p.dcKw && WarmIfLit(h)
    ensures 0.0 <= DcRaw(p, h) <= h.poa * (p.dcKw / 1000.0)
  {
    if h.poa > 0.0 {
      DerateIsFraction(h.cellTemp);
      DeratedAtMostRated(h.poa, p.dcKw, Derate(h.cellTemp));
    }
  }

  /** A yield within the reference energy gives a performance ratio within 0..100. */
  lemma PerformanceRatioBounds(yieldKwh: real, poaKwhM2: real, dcKw: real)
    requires 0.0 <= yieldKwh <= poaKwhM2 * dcKw
    ensures 0.0 <= PerformanceRatio(yieldKwh, poaKwhM2, dcKw) <= 100.0
  {
    var reference := poaKwhM2 * dcKw;
    if reference > 0.0 {
      var q := yieldKwh / reference;
      assert q * reference == yieldKwh;
    }
  }

  /**
   * With losses in range and lit cells at or above 25 °C, the performance ratio is
   * a percentage: between 0 and 100. (Colder cells derate by a factor above 1
   * and can push it higher; the chain does not clamp.)
   */
  lemma PerformanceRatioIsPercentage(p: Plant, hours: seq<Hour>)
    requires Bounded(p) && 0.0 <= p.dcKw
    requires WarmWhenLit(hours)
    ensures 0.0 <= AnnualKpis(p, hours).pr <= 100.0
  {
    RawWithinReference(p, hours);
    YieldBounds(p, hours);
    PerformanceRatioBounds(AnnualYield(p, hours), AnnualPoa(hours), p.dcKw);
  }

  /** When every lit hour is warm, the summed raw DC energy is at most the PR's reference energy. */
  lemma RawWithinReference(p: Plant, hours: seq<Hour>)
    requires 0.0 <= p.dcKw
    requires WarmWhenLit(hours)
    ensures Sum(DcRawSeries(p, hours)) <= AnnualPoa(hours) * p.dcKw
  {
    var k := p.dcKw / 1000.0;
    RawBelowRated(p, hours);
    SumMonotone(DcRawSeries(p, hours), Scale(PoaSeries(hours), k));
    SumScale(PoaSeries(hours), k);
    Rescale(Sum(PoaSeries(hours)), p.dcKw);
  }

  /** Hour by hour, raw DC power is at most the rated power under that hour's irradiance. */
  lemma RawBelowRated(p: Plant, hours: seq<Hour>)
    requires 0.0 <= p.dcKw
    requires WarmWhenLit(hours)
    ensures forall i :: 0 <= i < |hours| ==> DcRawSeries(p, hours)[i] <= Scale(PoaSeries(hours), p.dcKw / 1000.0)[i]
  {
    forall i | 0 <= i < |hours|
      ensures DcRawSeries(p, hours)[i] <= Scale(PoaSeries(hours), p.dcKw / 1000.0)[i]
    {
      RawAtMostRated(p, hours[i]);
    }
  }

  // ---------------------------------------------------------------------------
  // Calendar-month grouping

  /** The sum of the values whose hour falls in month `m`. */
  function MonthTotal(months: seq<int>, vals: seq<real>, m: int): real
    requires |months| == |vals|
  {
    if |months| == 0 then 0.0
    else (if months[0] == m then vals[0] else 0.0) + MonthTotal(months[1..], vals[1..], m)
  }

  /** Twelve calendar-month totals, January first. */
  function MonthlyTotals(months: seq<int>, vals: seq<real>): (r: seq<real>)
    requires |months| == |vals|
    ensures |r| == 12
  {
    seq(12, i requires 0 <= i < 12 => MonthTotal(months, vals, i + 1))
  }

  /**
   * Grouping by month loses nothing: when every hour carries a month in 1..12,
   * the twelve monthly totals add up to the annual total.
   */
  lemma {:induction false} MonthlyTotalsAddUp(months: seq<int>, vals: seq<real>)
    requires |months| == |vals|
    requires forall i :: 0 <= i < |months| ==> 1 <= months[i] <= 12
    ensures Sum(MonthlyTotals(months, vals)) == Sum(vals)
  {
    if |months| == 0 {
      assert MonthlyTotals(months, vals) == Single(12, 0, 0.0);
      SumSingle(12, 0, 0.0);
    } else {
      var first := Single(12, months[0] - 1, vals[0]);
      var rest := MonthlyTotals(months[1..], vals[1..]);
      assert MonthlyTotals(months, vals) == Add(first, rest);
      SumAdd(first, rest);
      SumSingle(12, months[0] - 1, vals[0]);
      MonthlyTotalsAddUp(months[1..], vals[1..]);
    }
  }

  /**
   * Monthly performance ratio (%). The monthly table has no zero guard: a month
   * without irradiation (or a plant without DC capacity) divides by zero, which
   * pandas reports as NaN or infinity; here it is None.
   */
  function MonthPr(energyKwh: real, poaWhM2: real, dcKw: real): (pr: Option<real>)
    ensures pr.None? <==> (poaWhM2 / 1000.0) * dcKw == 0.0
    ensures pr.Some? ==> pr.value * ((poaWhM2 / 1000.0) * dcKw) == energyKwh * 100.0
  {
    var reference := (poaWhM2 / 1000.0) * dcKw;
    if reference == 0.0 then None else Some((energyKwh / reference) * 100.0)
  }

  /** Where the reference energy is positive, the monthly PR is the annual PR formula applied to the month. */
  lemma MonthPrMatchesAnnualFormula(energyKwh: real, poaWhM2: real, dcKw: real)
    requires (poaWhM2 / 1000.0) * dcKw > 0.0
    ensures MonthPr(energyKwh, poaWhM2, dcKw) == Some(PerformanceRatio(energyKwh, poaWhM2 / 1000.0, dcKw))
  {
  }

  /** One row of the monthly table: irradiation in kWh/m², energy in MWh, PR in %. */
  datatype MonthRow = MonthRow(ghiKwhM2: real, poaKwhM2: real, energyMwh: real, pr: Option<real>)

  /** The monthly table of the dashboard and of the monthly export. */
  function MonthlyTable(p: Plant, hours: seq<Hour>): (rows: seq<MonthRow>)
    ensures |rows| == 12
  {
    var months := Months(hours);
    var ghi := MonthlyTotals(months, GhiSeries(hours));
    var poa := MonthlyTotals(months, PoaSeries(hours));
    var energy := MonthlyTotals(months, AcSeries(p, hours));
    seq(12, i requires 0 <= i < 12 =>
      MonthRow(ghi[i] / 1000.0, poa[i] / 1000.0, energy[i] / 1000.0, MonthPr(energy[i], poa[i], p.dcKw)))
  }

  function EnergyColumn(rows: seq<MonthRow>): (col: seq<real>)
    ensures |col| == |rows|
  {
    seq(|rows|, i requires 0 <= i < |rows| => rows[i].energyMwh)
  }

  /** The twelve monthly energies (MWh) add up to the first-year yield. */
  lemma MonthlyEnergyAddsUpToYield(p: Plant, hours: seq<Hour>)
    requires forall i :: 0 <= i < |hours| ==> 1 <= hours[i].month <= 12
    ensures Sum(EnergyColumn(MonthlyTable(p, hours))) * 1000.0 == AnnualYield(p, hours)
  {
    var totals := MonthlyTotals(Months(hours), AcSeries(p, hours));
    assert EnergyColumn(MonthlyTable(p, hours)) == Scale(totals, 1.0 / 1000.0);
    SumScale(totals, 1.0 / 1000.0);
    MonthlyTotalsAddUp(Months(hours), AcSeries(p, hours));
  }
}
