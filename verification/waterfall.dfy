/**
 * The annual loss waterfall: theoretical energy of the rated array under the
 * year's plane-of-array irradiation, followed by sequential deductions down to
 * the net yield. All values in MWh.
 */
module LossWaterfall {
  import opened Series
  import opened PowerChain
  import opened RealArith
  import Wrappers
  import Scenarios

  /** Temperature loss is a fixed share of the theoretical energy, not derived from the hourly derating. */
  const TempLossFraction: real := 0.08

  /**
   * The bars of the loss waterfall, in MWh. The closing bar is drawn as a
   * running total, so its height is `theoretical` minus every loss; `netYield`
   * is only the figure printed on it.
   */
  datatype Waterfall = Waterfall(
    theoretical: real,
    temperature: real,
    soiling: real,
    dcWiring: real,
    inverter: real,
    acWiring: real,
    availability: real,
    netYield: real)

  /** The energy before the availability stage, read back from the net yield. */
  function PreAvailEnergy(netMwh: real, availLoss: real): real
    requires availLoss != 1.0
  {
    netMwh / (1.0 - availLoss)
  }

  /** The inverter output, read back from the net yield by undoing availability, then AC wiring. */
  function PreAcEnergy(netMwh: real, acLoss: real, availLoss: real): real
    requires acLoss != 1.0 && availLoss != 1.0
  {
    PreAvailEnergy(netMwh, availLoss) / (1.0 - acLoss)
  }

  /**
   * The AC-wiring bar as the dashboard computes it: the net yield is grossed up
   * by the AC loss alone, as if the AC loss were the last stage of the chain.
   * The bar and the net yield then stand in the ratio `ac : (1 − ac)`.
   */
  function AcWiringLossAsWritten(netMwh: real, acLoss: real): (r: real)
    requires acLoss != 1.0
    ensures r * (1.0 - acLoss) == netMwh * acLoss
  {
    DivMul(netMwh, 1.0 - acLoss);
    netMwh / (1.0 - acLoss) * acLoss
  }

  /**
   * The AC-wiring bar with the chain's order respected: the AC loss acts on the
   * inverter output, before the availability loss. The bar and the net yield
   * stand in the ratio `ac : (1 − ac)(1 − avail)`.
   */
  function AcWiringLoss(netMwh: real, acLoss: real, availLoss: real): (r: real)
    requires acLoss != 1.0 && availLoss != 1.0
    ensures r * (1.0 - acLoss) == PreAvailEnergy(netMwh, availLoss) * acLoss
    ensures PreAvailEnergy(netMwh, availLoss) * (1.0 - availLoss) == netMwh
  {
    DivMul(PreAvailEnergy(netMwh, availLoss), 1.0 - acLoss);
    DivMul(netMwh, 1.0 - availLoss);
    PreAcEnergy(netMwh, acLoss, availLoss) * acLoss
  }

  /**
   * The availability bar: the net yield grossed up by the availability loss,
   * the last stage. The bar and the net yield stand in the ratio `avail : (1 − avail)`.
   */
  function AvailabilityLoss(netMwh: real, availLoss: real): (r: real)
    requires availLoss != 1.0
    ensures r * (1.0 - availLoss) == netMwh * availLoss
  {
    DivMul(netMwh, 1.0 - availLoss);
    PreAvailEnergy(netMwh, availLoss) * availLoss
  }

  /** What the temperature, soiling, DC-wiring and inverter deductions leave of the theoretical energy. */
  function AfterTemperature(theo: real): real { theo - theo * TempLossFraction }
  function AfterSoiling(theo: real, l: Losses): real { AfterTemperature(theo) - AfterTemperature(theo) * l.soiling }
  function AfterDcWiring(theo: real, l: Losses): real { AfterSoiling(theo, l) - AfterSoiling(theo, l) * l.dc }

  /**
   * The waterfall the dashboard draws for a plant of `dcKw` under `poaKwhM2` of
   * annual irradiation that yielded `yieldKwh`. Each DC-side deduction is a
   * fraction of what is left after the deductions before it; the two AC-side
   * bars are grossed up from the net yield, each as if it were the last stage.
   */
  function Build(poaKwhM2: real, dcKw: real, yieldKwh: real, l: Losses, invEff: real): (w: Waterfall)
    requires l.ac != 1.0 && l.avail != 1.0
    ensures w.theoretical * 1000.0 == poaKwhM2 * dcKw && w.netYield * 1000.0 == yieldKwh
    ensures w.acWiring * (1.0 - l.ac) == w.netYield * l.ac
    ensures w.availability * (1.0 - l.avail) == w.netYield * l.avail
  {
    var theo := (poaKwhM2 * dcKw) / 1000.0;
    var net := yieldKwh / 1000.0;
    Waterfall(
      theo,
      theo * TempLossFraction,
      AfterTemperature(theo) * l.soiling,
      AfterSoiling(theo, l) * l.dc,
      AfterDcWiring(theo, l) * (1.0 - invEff),
      AcWiringLossAsWritten(net, l.ac),
      AvailabilityLoss(net, l.avail),
      net)
  }

  /**
   * The waterfall with the AC-wiring bar corrected to the chain's order: every
   * other bar is the dashboard's, and the AC-wiring bar is the AC loss of the
   * inverter output.
   */
  function BuildCorrected(poaKwhM2: real, dcKw: real, yieldKwh: real, l: Losses, invEff: real): (w: Waterfall)
    requires l.ac != 1.0 && l.avail != 1.0
    ensures w == Build(poaKwhM2, dcKw, yieldKwh, l, invEff).(acWiring := w.acWiring)
    ensures w.acWiring * (1.0 - l.ac) * (1.0 - l.avail) == w.netYield * l.ac
  {
    var w := Build(poaKwhM2, dcKw, yieldKwh, l, invEff);
    var bar := AcWiringLoss(w.netYield, l.ac, l.avail);
    CorrectedRatio(bar, PreAvailEnergy(w.netYield, l.avail), w.netYield, l.ac, l.avail);
    w.(acWiring := bar)
  }

  /** The arithmetic behind `BuildCorrected`'s ratio: two single-stage ratios compose. */
  lemma CorrectedRatio(bar: real, pre: real, net: real, a: real, v: real)
    requires bar * (1.0 - a) == pre * a && pre * (1.0 - v) == net
    ensures bar * (1.0 - a) * (1.0 - v) == net * a
  {
    assert bar * (1.0 - a) * (1.0 - v) == pre * a * (1.0 - v);
  }

  /** Deducting a fraction `f` of `x` leaves what `Keep` leaves. */
  lemma DeductIsKeep(x: real, f: real)
    ensures x - x * f == Keep(x, f)
  {
  }

  /**
   * The DC-side cascade: temperature takes 8% of the theoretical energy, and
   * after the soiling, DC-wiring and inverter deductions what remains is
   * `theoretical × 0.92 × (1 − soiling) × (1 − dc) × efficiency`.
   */
  lemma DcSideCascade(poaKwhM2: real, dcKw: real, yieldKwh: real, l: Losses, invEff: real)
    requires l.ac != 1.0 && l.avail != 1.0
    ensures var w := Build(poaKwhM2, dcKw, yieldKwh, l, invEff);
      && w.temperature == TempLossFraction * w.theoretical
      && w.theoretical - w.temperature - w.soiling - w.dcWiring - w.inverter
         == w.theoretical * 0.92 * (1.0 - l.soiling) * (1.0 - l.dc) * invEff
  {
    var theo := (poaKwhM2 * dcKw) / 1000.0;
    DeductIsKeep(theo, TempLossFraction);
    DeductIsKeep(AfterTemperature(theo), l.soiling);
    DeductIsKeep(AfterSoiling(theo, l), l.dc);
    var r3 := AfterDcWiring(theo, l);
    assert r3 == theo * 0.92 * (1.0 - l.soiling) * (1.0 - l.dc);
    assert r3 - r3 * (1.0 - invEff) == r3 * invEff;
  }

  /** With fractions in range and a non-negative theoretical energy, no DC-side bar adds energy. */
  lemma DcDeductionsAreNonNegative(poaKwhM2: real, dcKw: real, yieldKwh: real, l: Losses, invEff: real)
    requires 0.0 <= poaKwhM2 && 0.0 <= dcKw
    requires LossesInRange(l) && l.ac != 1.0 && l.avail != 1.0 && 0.0 < invEff <= 1.0
    ensures var w := Build(poaKwhM2, dcKw, yieldKwh, l, invEff);
      0.0 <= w.temperature && 0.0 <= w.soiling && 0.0 <= w.dcWiring && 0.0 <= w.inverter
  {
    var theo := (poaKwhM2 * dcKw) / 1000.0;
    NonNegativeProduct(poaKwhM2, dcKw);
    DeductionStaysNonNegative(theo, TempLossFraction);
    DeductionStaysNonNegative(AfterTemperature(theo), l.soiling);
    DeductionStaysNonNegative(AfterSoiling(theo, l), l.dc);
    DeductionStaysNonNegative(AfterDcWiring(theo, l), 1.0 - invEff);
  }

  /** Deducting a fraction in [0,1] of a non-negative amount deducts a non-negative amount and leaves a non-negative rest. */
  lemma DeductionStaysNonNegative(x: real, f: real)
    requires 0.0 <= x && 0.0 <= f <= 1.0
    ensures 0.0 <= x * f && 0.0 <= x - x * f
  {
    MulFraction(x, f);
  }

  /**
   * With a non-negative yield and AC-side fractions in [0,1), no AC-side bar
   * adds energy: neither the dashboard's two bars nor the corrected AC-wiring bar.
   */
  lemma AcDeductionsAreNonNegative(poaKwhM2: real, dcKw: real, yieldKwh: real, l: Losses, invEff: real)
    requires 0.0 <= yieldKwh && 0.0 <= l.ac < 1.0 && 0.0 <= l.avail < 1.0
    ensures var w := Build(poaKwhM2, dcKw, yieldKwh, l, invEff);
      0.0 <= w.acWiring && 0.0 <= w.availability
    ensures 0.0 <= BuildCorrected(poaKwhM2, dcKw, yieldKwh, l, invEff).acWiring
  {
    var net := yieldKwh / 1000.0;
    NonNegativeQuotient(net, 1.0 - l.ac);
    NonNegativeProduct(net / (1.0 - l.ac), l.ac);
    NonNegativeQuotient(net, 1.0 - l.avail);
    NonNegativeProduct(PreAvailEnergy(net, l.avail), l.avail);
    NonNegativeQuotient(PreAvailEnergy(net, l.avail), 1.0 - l.ac);
    NonNegativeProduct(PreAcEnergy(net, l.ac, l.avail), l.ac);
  }

  /**
   * The AC side read back from the net yield with the corrected AC-wiring bar:
   * that bar is its fraction of the inverter output, the availability bar is
   * its fraction of what the AC stage leaves, and the two bars bring the
   * inverter output down to the net yield exactly.
   */
  lemma AcSideCascade(netMwh: real, acLoss: real, availLoss: real)
    requires acLoss != 1.0 && availLoss != 1.0
    ensures var preAc := PreAcEnergy(netMwh, acLoss, availLoss);
      var acw := AcWiringLoss(netMwh, acLoss, availLoss);
      var av := AvailabilityLoss(netMwh, availLoss);
      && acw == preAc * acLoss
      && av == (preAc - acw) * availLoss
      && preAc - acw - av == netMwh
  {
    var preAvail := PreAvailEnergy(netMwh, availLoss);
    var preAc := PreAcEnergy(netMwh, acLoss, availLoss);
    DivMul(preAvail, 1.0 - acLoss);
    DeductIsKeep(preAc, acLoss);
    assert preAc - preAc * acLoss == preAvail;
    DivMul(netMwh, 1.0 - availLoss);
    DeductIsKeep(preAvail, availLoss);
  }

  /**
   * The AC-wiring bar is the energy the hourly chain's AC wiring actually
   * removed: the AC-loss fraction of the summed inverter output.
   */
  lemma AcWiringBarMatchesChain(p: Plant, hours: seq<Hour>)
    requires p.losses.ac != 1.0 && p.losses.avail != 1.0
    ensures AcWiringLoss(AnnualYield(p, hours) / 1000.0, p.losses.ac, p.losses.avail)
         == (Sum(InverterSeries(p, hours)) / 1000.0) * p.losses.ac
  {
    AnnualYieldIsKeptInverterSum(p, hours);
    ReadBack(Sum(InverterSeries(p, hours)), p.losses.ac, p.losses.avail, AnnualYield(p, hours));
  }

  /**
   * The availability bar is the energy the hourly chain's availability loss
   * actually removed: the availability fraction of what the AC wiring left.
   */
  lemma AvailabilityBarMatchesChain(p: Plant, hours: seq<Hour>)
    requires p.losses.ac != 1.0 && p.losses.avail != 1.0
    ensures AvailabilityLoss(AnnualYield(p, hours) / 1000.0, p.losses.avail)
         == Keep(Sum(InverterSeries(p, hours)) / 1000.0, p.losses.ac) * p.losses.avail
  {
    AnnualYieldIsKeptInverterSum(p, hours);
    ReadBack(Sum(InverterSeries(p, hours)), p.losses.ac, p.losses.avail, AnnualYield(p, hours));
  }

  /**
   * The arithmetic behind the two lemmas above: reading back from a yield of
   * `Keep(Keep(kwh, ac), avail)` finds the AC-wiring bar `ac` of `kwh` and the
   * availability bar `avail` of what the AC wiring left.
   */
  lemma ReadBack(kwh: real, acLoss: real, availLoss: real, yieldKwh: real)
    requires acLoss != 1.0 && availLoss != 1.0
    requires yieldKwh == Keep(Keep(kwh, acLoss), availLoss)
    ensures AcWiringLoss(yieldKwh / 1000.0, acLoss, availLoss) == (kwh / 1000.0) * acLoss
    ensures AvailabilityLoss(yieldKwh / 1000.0, availLoss) == Keep(kwh / 1000.0, acLoss) * availLoss
  {
    var net := yieldKwh / 1000.0;
    var mwh := kwh / 1000.0;
    KeepScale(kwh, acLoss, availLoss, 1.0 / 1000.0);
    var afterAc := Keep(mwh, acLoss);
    assert net == afterAc * (1.0 - availLoss);
    MulDiv(afterAc, 1.0 - availLoss);
    assert PreAvailEnergy(net, availLoss) == afterAc;
    MulDiv(mwh, 1.0 - acLoss);
    assert PreAcEnergy(net, acLoss, availLoss) == mwh;
  }

  /** The dashboard's AC-wiring bar is the chain's AC-wiring bar scaled by `1 − avail`. */
  lemma AsWrittenIsScaledAcLoss(netMwh: real, acLoss: real, availLoss: real)
    requires acLoss != 1.0 && availLoss != 1.0
    ensures AcWiringLossAsWritten(netMwh, acLoss) == AcWiringLoss(netMwh, acLoss, availLoss) * (1.0 - availLoss)
  {
    var preAvail := PreAvailEnergy(netMwh, availLoss);
    var preAc := PreAcEnergy(netMwh, acLoss, availLoss);
    DivMul(netMwh, 1.0 - availLoss);
    assert preAvail * (1.0 - availLoss) == netMwh;
    DivMul(preAvail, 1.0 - acLoss);
    assert preAc * (1.0 - acLoss) == preAvail;
    AsWrittenRegrouped(preAc, acLoss, availLoss);
  }

  /** The dashboard's AC-wiring bar understates the AC loss whenever the yield and both losses are positive. */
  lemma AsWrittenUnderstatesAcLoss(netMwh: real, acLoss: real, availLoss: real)
    requires 0.0 < netMwh && 0.0 < acLoss < 1.0 && 0.0 < availLoss < 1.0
    ensures AcWiringLossAsWritten(netMwh, acLoss) < AcWiringLoss(netMwh, acLoss, availLoss)
  {
    AsWrittenIsScaledAcLoss(netMwh, acLoss, availLoss);
    var preAvail := PreAvailEnergy(netMwh, availLoss);
    PositiveQuotient(netMwh, 1.0 - availLoss);
    PositiveQuotient(preAvail, 1.0 - acLoss);
    var bar := AcWiringLoss(netMwh, acLoss, availLoss);
    PositiveProduct(PreAcEnergy(netMwh, acLoss, availLoss), acLoss);
    PositiveProduct(bar, availLoss);
  }

  /** Regrouping for `AsWrittenIsScaledAcLoss`: gross up `x(1−a)(1−v)` by `1−a` alone and take `a` of it. */
  lemma AsWrittenRegrouped(x: real, a: real, v: real)
    requires a != 1.0
    ensures (x * (1.0 - a) * (1.0 - v)) / (1.0 - a) * a == x * a * (1.0 - v)
  {
    assert x * (1.0 - a) * (1.0 - v) == (x * (1.0 - v)) * (1.0 - a);
    MulDiv(x * (1.0 - v), 1.0 - a);
  }

  /**
   * A design the sidebar accepts: 20 modules of 500 Wp in one string, one
   * 100 kW inverter at 98% efficiency, no DC-side losses, 10% AC-wiring and
   * 10% availability loss.
   */
  function InRangeDesign(): Scenarios.Inputs
  {
    Scenarios.Inputs(Wrappers.None, 0.0, 0.0, 30, 180, 500.0, 20, 1, 1, 100.0, 0.98,
                     Scenarios.OpenRack, Losses(0.0, 0.0, 0.1, 0.1), 25, 0.005)
  }

  /**
   * One hour at 1000 W/m² and 25 °C on the in-range design above (10 kWp,
   * 100 kWac): the inverter delivers 9.8 kWh, the AC wiring removes 0.98 kWh
   * and the yield is 7.938 kWh, but the as-written bar reports 0.882 kWh of AC loss.
   */
  lemma AsWrittenAcLossCounterexample()
    ensures Scenarios.SidebarBounds(InRangeDesign())
    ensures Scenarios.LivePlant(InRangeDesign()) == Plant(10.0, 100.0, 0.98, Losses(0.0, 0.0, 0.1, 0.1))
    ensures var p := Plant(10.0, 100.0, 0.98, Losses(0.0, 0.0, 0.1, 0.1));
      var hours := [Hour(1, 1000.0, 1000.0, 25.0)];
      && Sum(InverterSeries(p, hours)) == 9.8
      && AnnualYield(p, hours) == 7.938
      && AcWiringLossAsWritten(AnnualYield(p, hours) / 1000.0, 0.1) * 1000.0 == 0.882
      && AcWiringLoss(AnnualYield(p, hours) / 1000.0, 0.1, 0.1) * 1000.0 == 0.98
  {
    var p := Plant(10.0, 100.0, 0.98, Losses(0.0, 0.0, 0.1, 0.1));
    var hours := [Hour(1, 1000.0, 1000.0, 25.0)];
    assert HourInverter(p, hours[0]) == 9.8;
    assert InverterSeries(p, hours) == [9.8];
    assert AcSeries(p, hours) == [7.938];
    assert PreAvailEnergy(0.007938, 0.1) == 0.00882;
    assert PreAcEnergy(0.007938, 0.1, 0.1) == 0.0098;
  }

  /**
   * The dashboard's two AC-side bars do not bring the inverter output down to
   * the net yield: they leave the net yield plus `avail` of the corrected
   * AC-wiring bar.
   */
  lemma AsWrittenAcSideLeavesSurplus(netMwh: real, acLoss: real, availLoss: real)
    requires acLoss != 1.0 && availLoss != 1.0
    ensures PreAcEnergy(netMwh, acLoss, availLoss) - AcWiringLossAsWritten(netMwh, acLoss) - AvailabilityLoss(netMwh, availLoss)
         == netMwh + AcWiringLoss(netMwh, acLoss, availLoss) * availLoss
  {
    AcSideCascade(netMwh, acLoss, availLoss);
    AsWrittenIsScaledAcLoss(netMwh, acLoss, availLoss);
  }

  /**
   * The waterfall need not close: its DC side starts from the rated array and a
   * flat 8% temperature loss, while its AC side is read back from the actual
   * yield. For the in-range design and hour above, the dashboard's bars leave
   * 7.252 kWh of a 7.938 kWh yield, and with the corrected AC-wiring bar they
   * leave 7.154 kWh.
   */
  lemma WaterfallNeedNotClose()
    ensures var w := Build(1.0, 10.0, 7.938, Losses(0.0, 0.0, 0.1, 0.1), 0.98);
      && w.netYield == 0.007938
      && w.theoretical - w.temperature - w.soiling - w.dcWiring - w.inverter - w.acWiring - w.availability == 0.007252
    ensures var w := BuildCorrected(1.0, 10.0, 7.938, Losses(0.0, 0.0, 0.1, 0.1), 0.98);
      w.theoretical - w.temperature - w.soiling - w.dcWiring - w.inverter - w.acWiring - w.availability == 0.007154
  {
    var w := Build(1.0, 10.0, 7.938, Losses(0.0, 0.0, 0.1, 0.1), 0.98);
    assert AcWiringLossAsWritten(0.007938, 0.1) == 0.000882;
    assert PreAvailEnergy(0.007938, 0.1) == 0.00882;
    assert PreAcEnergy(0.007938, 0.1, 0.1) == 0.0098;
    assert w.acWiring == 0.000882 && w.availability == 0.000882;
  }
}
