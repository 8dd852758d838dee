/** Plant sizing from the sidebar: DC and AC capacity, the DC/AC ratio and its advisory bands. */
module Sizing {

  /** DC capacity (kWp): modules per string × strings × module rating (Wp), in kW. */
  function DcCapacity(nSeries: int, nParallel: int, moduleWp: real): (kw: real)
    ensures nSeries >= 1 && nParallel >= 1 && moduleWp > 0.0 ==> kw >= moduleWp / 1000.0
  {
    assert nSeries >= 1 && nParallel >= 1 ==> nSeries * nParallel >= 1;
    (nSeries * nParallel) as real * moduleWp / 1000.0
  }

  /** AC capacity (kWac): number of inverters × rating per inverter. */
  function AcCapacity(numInv: int, invRating: real): (kw: real)
    ensures numInv >= 1 && invRating > 0.0 ==> kw >= invRating
  {
    numInv as real * invRating
  }

  /** Each further string adds its modules' rating: capacity grows linearly with the string count. */
  lemma EachStringAddsItsModules(nSeries: int, nParallel: int, moduleWp: real)
    ensures DcCapacity(nSeries, nParallel + 1, moduleWp)
         == DcCapacity(nSeries, nParallel, moduleWp) + nSeries as real * moduleWp / 1000.0
  {
    assert nSeries * (nParallel + 1) == nSeries * nParallel + nSeries;
  }

  /** DC/AC ratio, reported as 0 when there is no AC capacity to divide by. */
  function DcAcRatio(dcKw: real, acKw: real): (r: real)
    ensures acKw > 0.0 ==> r * acKw == dcKw
    ensures acKw <= 0.0 ==> r == 0.0
  {
    if acKw > 0.0 then dcKw / acKw else 0.0
  }

  /** The message the sidebar shows for a DC/AC ratio. */
  datatype RatioAdvice = ExcessiveClipping | Undersized | Optimal | NoAdvice

  /** The warning/success bands, checked in the sidebar's order. */
  function Advise(ratio: real): (a: RatioAdvice)
    ensures a == ExcessiveClipping <==> ratio > 2.0
    ensures a == Undersized <==> ratio < 1.0
    ensures a == Optimal <==> 1.1 <= ratio <= 1.4
    ensures a == NoAdvice <==> (1.0 <= ratio < 1.1 || 1.4 < ratio <= 2.0)
  {
    if ratio > 2.0 then ExcessiveClipping
    else if ratio < 1.0 then Undersized
    else if 1.1 <= ratio <= 1.4 then Optimal
    else NoAdvice
  }

  /** A plant without AC capacity has ratio 0 and is flagged as undersized rather than failing. */
  lemma NoAcCapacityIsUndersized(dcKw: real, acKw: real)
    requires acKw <= 0.0
    ensures Advise(DcAcRatio(dcKw, acKw)) == Undersized
  {
  }

  /** The default design: 18 × 100 modules of 550 Wp on four 200 kW inverters. */
  lemma DefaultDesign()
    ensures DcCapacity(18, 100, 550.0) == 990.0
    ensures AcCapacity(4, 200.0) == 800.0
    ensures DcAcRatio(990.0, 800.0) == 1.2375
    ensures Advise(1.2375) == Optimal
  {
  }
}
