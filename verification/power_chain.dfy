/**
 * The hourly power chain of `run_full_sim`: from plane-of-array irradiance and
 * cell temperature to the AC energy delivered in each hour of the weather year.
 * Solar position, transposition and the cell-temperature model are pvlib calls;
 * their per-hour outputs arrive here as `Hour` values.
 */
module PowerChain {
  import opened Series
  import opened RealArith

  /** Power temperature coefficient of the modules, per degree Celsius. */
  const TempCoeff: real := 0.004
  /** Cell temperature at which modules deliver their rated power, degrees Celsius. */
  const RefCellTemp: real := 25.0
  /** Irradiance at standard test conditions, W/m². */
  const StcIrradiance: real := 1000.0

  /** The four loss fractions of the sidebar (percentages divided by 100). */
  datatype Losses = Losses(soiling: real, dc: real, ac: real, avail: real)

  /** What the chain needs to know about the plant: DC and AC capacity (kW), inverter efficiency and losses. */
  datatype Plant = Plant(dcKw: real, acLimit: real, invEff: real, losses: Losses)

  /**
   * One hour of the weather year after the external models: its calendar month
   * (1..12), global horizontal and plane-of-array irradiance (W/m²) and the cell
   * temperature (°C).
   */
  datatype Hour = Hour(month: int, ghi: real, poa: real, cellTemp: real)

  predicate LossesInRange(l: Losses)
  {
    && 0.0 <= l.soiling <= 1.0
    && 0.0 <= l.dc <= 1.0
    && 0.0 <= l.ac <= 1.0
    && 0.0 <= l.avail <= 1.0
  }

  /** The ranges the sidebar inputs keep the plant in: fractions in [0,1], efficiency in (0,1], AC capacity not negative. */
  predicate Bounded(p: Plant)
  {
    LossesInRange(p.losses) && 0.0 < p.invEff <= 1.0 && 0.0 <= p.acLimit
  }

  /** Linear temperature derating factor; neither side of 25 °C is clamped. */
  function Derate(cellTemp: real): real
  {
    1.0 - TempCoeff * (cellTemp - RefCellTemp)
  }

  /**
   * Raw DC power (kW) of one hour. A dark hour gives nothing, and at 25 °C the
   * array delivers its rating scaled by the irradiance.
   */
  function DcRaw(p: Plant, h: Hour): (r: real)
    ensures h.poa == 0.0 ==> r == 0.0
    ensures h.cellTemp == RefCellTemp ==> r * StcIrradiance == h.poa * p.dcKw
  {
    (h.poa / StcIrradiance) * p.dcKw * Derate(h.cellTemp)
  }

  /** What remains of `x` after a loss of fraction `f`: losses compound multiplicatively. */
  function Keep(x: real, f: real): real
  {
    x * (1.0 - f)
  }

  /**
   * DC power after soiling and DC-wiring losses, applied multiplicatively: the
   * order of the two losses does not matter, and either one at 100% leaves nothing.
   */
  function DcNet(p: Plant, dcRaw: real): (r: real)
    ensures r == Keep(Keep(dcRaw, p.losses.dc), p.losses.soiling)
    ensures p.losses.soiling == 1.0 || p.losses.dc == 1.0 ==> r == 0.0
  {
    KeepCommutes(dcRaw, p.losses.soiling, p.losses.dc);
    Keep(Keep(dcRaw, p.losses.soiling), p.losses.dc)
  }

  /**
   * `x.clip(upper=u)`: only an upper bound is imposed. The result is the
   * largest value that is at most both `x` and `u`.
   */
  function Clip(x: real, upper: real): (r: real)
    ensures r <= upper && r <= x
    ensures r == x || r == upper
  {
    if x <= upper then x else upper
  }

  /** Inverter output (kW): the efficiency is applied, then the output is clipped at the AC capacity. */
  function InverterOut(p: Plant, dcNet: real): (r: real)
    ensures r <= p.acLimit
    ensures dcNet * p.invEff >= p.acLimit ==> r == p.acLimit
    ensures dcNet * p.invEff <= p.acLimit ==> r == dcNet * p.invEff
  {
    Clip(dcNet * p.invEff, p.acLimit)
  }

  /**
   * AC energy of one hour (kWh) after AC-wiring and availability losses: the
   * order of the two losses does not matter, and either one at 100% leaves nothing.
   */
  function AcFinal(p: Plant, acPower: real): (r: real)
    ensures r == Keep(Keep(acPower, p.losses.avail), p.losses.ac)
    ensures p.losses.ac == 1.0 || p.losses.avail == 1.0 ==> r == 0.0
  {
    KeepCommutes(acPower, p.losses.ac, p.losses.avail);
    Keep(Keep(acPower, p.losses.ac), p.losses.avail)
  }

  /** The inverter output of one hour. */
  function HourInverter(p: Plant, h: Hour): real
  {
    InverterOut(p, DcNet(p, DcRaw(p, h)))
  }

  /** The delivered AC energy of one hour: the whole chain. */
  function HourAc(p: Plant, h: Hour): real
  {
    AcFinal(p, HourInverter(p, h))
  }

  function PoaSeries(hours: seq<Hour>): (r: seq<real>)
    ensures |r| == |hours|
  {
    seq(|hours|, i requires 0 <= i < |hours| => hours[i].poa)
  }

  function GhiSeries(hours: seq<Hour>): (r: seq<real>)
    ensures |r| == |hours|
  {
    seq(|hours|, i requires 0 <= i < |hours| => hours[i].ghi)
  }

  function Months(hours: seq<Hour>): (r: seq<int>)
    ensures |r| == |hours|
  {
    seq(|hours|, i requires 0 <= i < |hours| => hours[i].month)
  }

  function DcRawSeries(p: Plant, hours: seq<Hour>): (r: seq<real>)
    ensures |r| == |hours|
  {
    seq(|hours|, i requires 0 <= i < |hours| => DcRaw(p, hours[i]))
  }

  /** `ac_power` before the AC-side losses, hour by hour. */
  function InverterSeries(p: Plant, hours: seq<Hour>): (r: seq<real>)
    ensures |r| == |hours|
  {
    seq(|hours|, i requires 0 <= i < |hours| => HourInverter(p, hours[i]))
  }

  /** `ac_final`, the series returned by the simulation, aligned hour by hour with the weather. */
  function AcSeries(p: Plant, hours: seq<Hour>): (r: seq<real>)
    ensures |r| == |hours|
  {
    seq(|hours|, i requires 0 <= i < |hours| => HourAc(p, hours[i]))
  }

  /**
   * First-year yield (kWh): each record is one hour, so summing kW gives kWh.
   * An empty year yields nothing and a one-hour year yields that hour's energy.
   */
  function AnnualYield(p: Plant, hours: seq<Hour>): (r: real)
    ensures |hours| == 0 ==> r == 0.0
    ensures |hours| == 1 ==> r == HourAc(p, hours[0])
  {
    assert |hours| == 1 ==> AcSeries(p, hours)[1..] == [] && Sum(AcSeries(p, hours)[1..]) == 0.0;
    Sum(AcSeries(p, hours))
  }

  /** The yields of two consecutive stretches of hours add up to the yield of both. */
  lemma AnnualYieldSplits(p: Plant, a: seq<Hour>, b: seq<Hour>)
    ensures AnnualYield(p, a + b) == AnnualYield(p, a) + AnnualYield(p, b)
  {
    assert AcSeries(p, a + b) == AcSeries(p, a) + AcSeries(p, b);
    SumConcat(AcSeries(p, a), AcSeries(p, b));
  }

  /** Keeping what a fraction in [0,1] leaves never makes a non-negative quantity grow or turn negative. */
  lemma KeepBounds(x: real, f: real)
    requires 0.0 <= x && 0.0 <= f <= 1.0
    ensures 0.0 <= Keep(x, f) <= x
  {
    assert Keep(x, f) == x - x * f;
    assert 0.0 <= x * f <= x * 1.0;
  }

  /** Applying an efficiency in (0,1] never makes a non-negative quantity grow or turn negative. */
  lemma ApplyEfficiency(x: real, eff: real)
    requires 0.0 <= x && 0.0 < eff <= 1.0
    ensures 0.0 <= x * eff <= x
  {
    MulFraction(x, eff);
  }

  /** The DC-side losses keep a non-negative power between zero and itself. */
  lemma DcSideNeverAmplifies(p: Plant, raw: real)
    requires LossesInRange(p.losses) && 0.0 <= raw
    ensures 0.0 <= DcNet(p, raw) <= raw
  {
    KeepBounds(raw, p.losses.soiling);
    KeepBounds(Keep(raw, p.losses.soiling), p.losses.dc);
  }

  /** The inverter keeps a non-negative DC power between zero and the smaller of itself and the AC capacity. */
  lemma InverterNeverAmplifies(p: Plant, net: real)
    requires Bounded(p) && 0.0 <= net
    ensures 0.0 <= InverterOut(p, net) <= net
  {
    ApplyEfficiency(net, p.invEff);
  }

  /** The AC-side losses keep a non-negative power between zero and itself. */
  lemma AcSideNeverAmplifies(p: Plant, inv: real)
    requires LossesInRange(p.losses) && 0.0 <= inv
    ensures 0.0 <= AcFinal(p, inv) <= inv
  {
    KeepBounds(inv, p.losses.ac);
    KeepBounds(Keep(inv, p.losses.ac), p.losses.avail);
  }

  /**
   * Losses never amplify energy: with every fraction in range and a
   * non-negative raw DC power, the delivered AC power of the hour lies between
   * zero and the smaller of the raw DC power and the AC capacity.
   */
  lemma HourNeverAmplifies(p: Plant, h: Hour)
    requires Bounded(p)
    requires 0.0 <= DcRaw(p, h)
    ensures 0.0 <= HourInverter(p, h) <= p.acLimit
    ensures 0.0 <= HourAc(p, h) <= DcRaw(p, h)
    ensures HourAc(p, h) <= p.acLimit
  {
    var raw := DcRaw(p, h);
    DcSideNeverAmplifies(p, raw);
    InverterNeverAmplifies(p, DcNet(p, raw));
    AcSideNeverAmplifies(p, HourInverter(p, h));
  }

  /** An hour with no plane-of-array irradiance produces nothing (not an error). */
  lemma DarkHourProducesNothing(p: Plant, h: Hour)
    requires 0.0 <= p.acLimit
    requires h.poa == 0.0
    ensures HourInverter(p, h) == 0.0 && HourAc(p, h) == 0.0
  {
  }

  /** Two losses may be applied in either order. */
  lemma KeepCommutes(x: real, f: real, g: real)
    ensures Keep(Keep(x, f), g) == Keep(Keep(x, g), f)
  {
    KeepTwice(x, f, g);
    KeepTwice(x, g, f);
    assert (1.0 - f) * (1.0 - g) == (1.0 - g) * (1.0 - f);
  }

  /** Two losses in a row keep the product of what each keeps. */
  lemma KeepTwice(x: real, f: real, g: real)
    ensures Keep(Keep(x, f), g) == x * ((1.0 - f) * (1.0 - g))
  {
  }

  /** A constant factor passes through `Keep`. */
  lemma KeepScale(x: real, f: real, g: real, k: real)
    ensures Keep(Keep(x, f), g) * k == Keep(Keep(x * k, f), g)
  {
  }

  /**
   * The AC losses act on the whole year at once: the delivered series is the
   * inverter series scaled by `(1 - ac) * (1 - avail)`.
   */
  lemma {:induction false} AcSeriesIsScaledInverterSeries(p: Plant, hours: seq<Hour>)
    ensures AcSeries(p, hours) == Scale(InverterSeries(p, hours), (1.0 - p.losses.ac) * (1.0 - p.losses.avail))
  {
    var k := (1.0 - p.losses.ac) * (1.0 - p.losses.avail);
    var inv := InverterSeries(p, hours);
    forall i | 0 <= i < |hours|
      ensures AcSeries(p, hours)[i] == Scale(inv, k)[i]
    {
      KeepTwice(inv[i], p.losses.ac, p.losses.avail);
    }
    assert AcSeries(p, hours) == Scale(inv, k);
  }

  /** The first-year yield is the summed inverter output with the two AC-side losses applied once. */
  lemma AnnualYieldIsKeptInverterSum(p: Plant, hours: seq<Hour>)
    ensures AnnualYield(p, hours) == Keep(Keep(Sum(InverterSeries(p, hours)), p.losses.ac), p.losses.avail)
  {
    var k := (1.0 - p.losses.ac) * (1.0 - p.losses.avail);
    var inv := InverterSeries(p, hours);
    AcSeriesIsScaledInverterSeries(p, hours);
    SumScale(inv, k);
    KeptOnce(Sum(inv), p.losses.ac, p.losses.avail, AnnualYield(p, hours));
  }

  /** A value equal to `x` scaled by what two losses keep is `x` with both losses applied. */
  lemma KeptOnce(x: real, f: real, g: real, y: real)
    requires y == x * ((1.0 - f) * (1.0 - g))
    ensures y == Keep(Keep(x, f), g)
  {
    KeepTwice(x, f, g);
  }

  /**
   * Over the whole year, losses never amplify energy: the first-year yield is
   * non-negative, at most the summed raw DC energy, and at most the AC
   * capacity times the number of hours.
   */
  lemma YieldBounds(p: Plant, hours: seq<Hour>)
    requires Bounded(p)
    requires forall i :: 0 <= i < |hours| ==> 0.0 <= DcRaw(p, hours[i])
    ensures 0.0 <= AnnualYield(p, hours) <= Sum(DcRawSeries(p, hours))
    ensures AnnualYield(p, hours) <= |hours| as real * p.acLimit
  {
    var ac := AcSeries(p, hours);
    forall i | 0 <= i < |hours|
      ensures 0.0 <= ac[i] <= DcRawSeries(p, hours)[i] && ac[i] <= p.acLimit
    {
      HourNeverAmplifies(p, hours[i]);
    }
    SumNonNegative(ac);
    SumMonotone(ac, DcRawSeries(p, hours));
    SumAtMostCount(ac, p.acLimit);
  }

  /** Keeping a fraction of at most 1 keeps the order. */
  lemma KeepMonotone(x: real, y: real, f: real)
    requires x <= y && f <= 1.0
    ensures Keep(x, f) <= Keep(y, f)
  {
    MulMonotone(1.0 - f, x, y);
  }

  /** Clipping at the same cap keeps the order. */
  lemma ClipMonotone(x: real, y: real, upper: real)
    requires x <= y
    ensures Clip(x, upper) <= Clip(y, upper)
  {
  }

  /** Applying two losses of at most 100% each keeps the order. */
  lemma KeepTwiceMonotone(x: real, y: real, f: real, g: real)
    requires x <= y && f <= 1.0 && g <= 1.0
    ensures Keep(Keep(x, f), g) <= Keep(Keep(y, f), g)
  {
    KeepMonotone(x, y, f);
    KeepMonotone(Keep(x, f), Keep(y, f), g);
  }

  /** The inverter keeps the order of its DC inputs. */
  lemma InverterMonotone(p: Plant, x: real, y: real)
    requires 0.0 <= p.invEff && x <= y
    ensures InverterOut(p, x) <= InverterOut(p, y)
  {
    MulMonotone(p.invEff, x, y);
    ClipMonotone(x * p.invEff, y * p.invEff, p.acLimit);
  }

  /** More raw DC power never gives less delivered AC power in that hour. */
  lemma ChainMonotone(p: Plant, a: real, b: real)
    requires Bounded(p) && a <= b
    ensures AcFinal(p, InverterOut(p, DcNet(p, a))) <= AcFinal(p, InverterOut(p, DcNet(p, b)))
  {
    KeepTwiceMonotone(a, b, p.losses.soiling, p.losses.dc);
    InverterMonotone(p, DcNet(p, a), DcNet(p, b));
    KeepTwiceMonotone(InverterOut(p, DcNet(p, a)), InverterOut(p, DcNet(p, b)), p.losses.ac, p.losses.avail);
  }

  /** A larger array under non-negative irradiance and a non-negative derating gives at least as much raw DC power. */
  lemma RawMonotoneInDc(p: Plant, q: Plant, h: Hour)
    requires p.dcKw <= q.dcKw
    requires 0.0 <= h.poa && 0.0 <= Derate(h.cellTemp)
    ensures DcRaw(p, h) <= DcRaw(q, h)
  {
    NonNegativeQuotient(h.poa, StcIrradiance);
    ScaledTwiceMonotone(h.poa / StcIrradiance, Derate(h.cellTemp), p.dcKw, q.dcKw, DcRaw(p, h), DcRaw(q, h));
  }

  /** Scaling by two non-negative factors keeps the order. */
  lemma ScaledTwiceMonotone(g: real, d: real, x: real, y: real, gxd: real, gyd: real)
    requires 0.0 <= g && 0.0 <= d && x <= y
    requires gxd == g * x * d && gyd == g * y * d
    ensures gxd <= gyd
  {
    MulMonotone(g, x, y);
    MulMonotone(d, g * x, g * y);
  }

  /** In one hour, a plant that differs only by a larger DC capacity delivers at least as much. */
  lemma HourMonotoneInDc(p: Plant, q: Plant, h: Hour)
    requires Bounded(p)
    requires q == p.(dcKw := q.dcKw) && p.dcKw <= q.dcKw
    requires 0.0 <= h.poa && 0.0 <= Derate(h.cellTemp)
    ensures HourAc(p, h) <= HourAc(q, h)
  {
    assert q.losses == p.losses && q.invEff == p.invEff && q.acLimit == p.acLimit;
    RawMonotoneInDc(p, q, h);
    var b := DcRaw(q, h);
    ChainMonotone(p, DcRaw(p, h), b);
    assert HourAc(q, h) == AcFinal(p, InverterOut(p, DcNet(p, b)));
  }

  /**
   * More DC capacity at a fixed AC capacity never lowers annual energy: the
   * plants differ only in DC capacity, every hour has non-negative irradiance
   * and its cells are below the temperature where the derating turns negative.
   */
  lemma YieldMonotoneInDc(p: Plant, q: Plant, hours: seq<Hour>)
    requires Bounded(p)
    requires q == p.(dcKw := q.dcKw) && p.dcKw <= q.dcKw
    requires forall i :: 0 <= i < |hours| ==> 0.0 <= hours[i].poa && 0.0 <= Derate(hours[i].cellTemp)
    ensures AnnualYield(p, hours) <= AnnualYield(q, hours)
  {
    var small := AcSeries(p, hours);
    var large := AcSeries(q, hours);
    forall i | 0 <= i < |hours|
      ensures small[i] <= large[i]
    {
      HourMonotoneInDc(p, q, hours[i]);
    }
    SumMonotone(small, large);
  }
}
