# Solar dashboard core in Dafny

This project models the arithmetic of a single-page solar-PV design dashboard
(`main.py`). The dashboard takes a site, an array and inverter design and four
loss percentages. It simulates a typical meteorological year hour by hour and
reports:

- the first-year yield, specific yield, performance ratio (PR) and annual
  plane-of-array (POA) irradiation;
- a calendar-month table;
- a loss waterfall;
- a multi-year degradation forecast;
- optionally, a side-by-side comparison with a saved scenario.

The solar position, the transposition to the array plane and the cell
temperature come from an external photovoltaic library, and the weather year
comes from a web service. Their per-hour results enter the model as `Hour`
values: calendar month, GHI (global horizontal irradiance), POA irradiance and
cell temperature. The script's own arithmetic is modelled in these modules:

| module | what it models |
|---|---|
| `PowerChain` | the hourly chain: temperature derating at 0.004/°C around 25 °C; soiling and DC-wiring losses; inverter efficiency and clipping at the AC capacity; AC-wiring and availability losses; the first-year yield as the sum of the hours |
| `Sizing` | DC and AC capacity, the DC/AC ratio with its zero guard, and the advisory bands the sidebar shows for it |
| `Kpis` | annual POA, PR with its zero guard, specific yield, the calendar-month grouping and the monthly PR |
| `LossWaterfall` | the annual loss waterfall as the dashboard draws it (`Build`), and the same waterfall with the AC-wiring bar corrected to the chain's order (`BuildCorrected`) |
| `Degradation` | the geometric degradation forecast and its cumulative sum |
| `Comparison` | percentage deltas, the PR difference in points, and the revenue difference at $0.12/kWh |
| `Scenarios` | the sidebar inputs and their limits, the scenario snapshot, the comparison view, and the per-session scenario store |

`Scenarios.Session` is a class because the script updates its session-state
dictionary in place. The store is a `map` plus the insertion order of its keys,
and the comparison flag and the selected name are fields as well.

All quantities are `real`. Where the script divides without a guard (the
percentage deltas and the monthly PR), floating point yields infinity or
not-a-number, and the model returns `None` instead.

## Model

| member | source | states |
|---|---|---|
| `PowerChain.DcRaw` | main.py:318 | an hour without irradiance gives no raw DC power; at 25 °C raw DC power × 1000 == POA × DC capacity |
| `PowerChain.DcNet` | main.py:321 | the soiling and DC-wiring losses may be applied in either order, and either one at 100% leaves nothing |
| `PowerChain.Clip` | main.py:324 | the clipped value is at most both the input and the cap, and it is one of the two |
| `PowerChain.InverterOut` | main.py:324 | inverter output never exceeds the AC capacity; it equals the capacity when DC·efficiency reaches it, and DC·efficiency otherwise |
| `PowerChain.DcSideNeverAmplifies` | main.py:321 | soiling and DC-wiring losses in [0,1] keep a non-negative DC power between 0 and itself |
| `PowerChain.InverterNeverAmplifies` | main.py:324 | with efficiency in (0,1] and a non-negative AC capacity, the inverter output lies between 0 and its DC input |
| `PowerChain.AcSideNeverAmplifies` | main.py:327 | AC-wiring and availability losses in [0,1] keep a non-negative power between 0 and itself |
| `PowerChain.AcFinal` | main.py:327 | the AC-wiring and availability losses may be applied in either order, and either one at 100% leaves nothing |
| `PowerChain.AnnualYield` | main.py:422 | an empty weather year yields 0 and a one-hour year yields that hour's delivered energy |
| `PowerChain.AnnualYieldSplits` | main.py:422 | the yields of two consecutive stretches of hours add up to the yield of both |
| `PowerChain.HourNeverAmplifies` | main.py:318-327 | losses never amplify: for a non-negative raw DC power, each hour's AC output lies in [0, min(raw DC, AC capacity)] |
| `PowerChain.DarkHourProducesNothing` | main.py:318-327 | an hour with zero POA irradiance yields zero inverter and AC output |
| `PowerChain.AcSeriesIsScaledInverterSeries` | main.py:324-327 | the delivered series is the inverter series scaled by (1−ac)(1−avail), hour by hour |
| `PowerChain.AnnualYieldIsKeptInverterSum` | main.py:324-327 | the first-year yield is the summed inverter output with the two AC-side losses applied once |
| `PowerChain.YieldBounds` | main.py:318-327 | the first-year yield lies between 0 and both the summed raw DC energy and hours × AC capacity |
| `PowerChain.HourMonotoneInDc` | main.py:318-327 | in one hour with non-negative irradiance and derating, a plant that differs only by a larger DC capacity delivers at least as much AC energy |
| `PowerChain.YieldMonotoneInDc` | main.py:318-327 | more DC capacity at the same AC capacity, efficiency and losses never lowers the first-year yield, for any year of non-negative irradiance and derating |
| `Sizing.DcCapacity` | main.py:107 | with at least one module and string and a positive rating, the capacity is at least one module's rating in kW |
| `Sizing.EachStringAddsItsModules` | main.py:107 | one more string adds exactly its modules' rating to the DC capacity |
| `Sizing.AcCapacity` | main.py:132 | with at least one inverter of positive rating, AC capacity is at least one inverter's rating |
| `Sizing.DcAcRatio` | main.py:135 | ratio × AC capacity == DC capacity when the AC capacity is positive; the ratio is 0 otherwise |
| `Sizing.Advise` | main.py:139-144 | one "if and only if" per band: above 2 clipping warning; below 1 undersized warning; 1.1–1.4 optimal; the other in-between ratios no message |
| `Sizing.NoAcCapacityIsUndersized` | main.py:135-142 | a plant without AC capacity gets ratio 0 and the undersized warning rather than a failure |
| `Sizing.DefaultDesign` | main.py:83-135 | the default sidebar gives 990 kWp, 800 kWac, ratio 1.2375 and the optimal message |
| `Kpis.AnnualPoa` | main.py:421 | non-negative hourly irradiance gives a non-negative annual irradiation |
| `Kpis.AnnualKpis` | main.py:421-423 | the run's figures are the annual irradiation and first-year yield, and PR × POA × DC == yield × 100 when POA × DC is positive, PR == 0 otherwise |
| `Kpis.PerformanceRatio` | main.py:421-423 | PR is 0 when POA × DC capacity is not positive; otherwise PR × POA × DC == yield × 100 |
| `Kpis.SpecificYield` | main.py:436 | specific yield × DC capacity == yield |
| `Kpis.DerateIsFraction` | main.py:318 | between 25 °C and 275 °C the derating factor lies in [0,1] |
| `Kpis.RawAtMostRated` | main.py:318 | for a dark hour, or a lit hour with cells between 25 °C and 275 °C, raw DC power lies between 0 and the rated power under that hour's irradiance |
| `Kpis.PerformanceRatioBounds` | main.py:423 | a yield between 0 and the reference energy gives a PR between 0 and 100 |
| `Kpis.PerformanceRatioIsPercentage` | main.py:421-423 | with bounded losses, non-negative irradiance, and cells between 25 °C and 275 °C in every lit hour (dark hours at any temperature), the annual PR lies between 0 and 100 |
| `Kpis.MonthlyTotals` | main.py:524-528 | grouping by calendar month gives exactly twelve totals |
| `Kpis.MonthlyTotalsAddUp` | main.py:524-528 | when every hour carries a month in 1..12, the twelve monthly totals add up to the annual total |
| `Kpis.MonthPr` | main.py:534 | monthly PR is undefined exactly when its reference energy is 0; otherwise PR × (POA/1000 × DC) == energy × 100 |
| `Kpis.MonthPrMatchesAnnualFormula` | main.py:534 | where the reference is positive, the monthly PR is the annual PR formula applied to the month |
| `Kpis.MonthlyTable` | main.py:524-534 | the monthly table has twelve rows |
| `Kpis.EnergyColumn` | main.py:533 | the energy column has one entry per row |
| `Kpis.MonthlyEnergyAddsUpToYield` | main.py:524-533 | the twelve monthly energies (MWh) × 1000 equal the first-year yield |
| `LossWaterfall.Build` | main.py:754-760 | the waterfall the dashboard draws: theoretical energy and the net yield (the label of the closing total bar) are the kWh figures in MWh; the AC-wiring bar and the net yield stand in the ratio ac : (1−ac), the availability bar and the net yield in the ratio avail : (1−avail) |
| `LossWaterfall.AcWiringLossAsWritten` | main.py:759 | the script's AC-wiring bar × (1−ac) == net yield × ac: it grosses up by the AC loss alone |
| `LossWaterfall.AvailabilityLoss` | main.py:760 | the availability bar × (1−avail) == net yield × avail |
| `LossWaterfall.AcWiringLoss` | main.py:759 | corrected half of the finding below: the AC-wiring bar × (1−ac) × (1−avail) == net yield × ac, undoing availability before AC wiring |
| `LossWaterfall.BuildCorrected` | main.py:754-760 | corrected half of the finding below: the dashboard's waterfall with only the AC-wiring bar replaced, so that bar × (1−ac)(1−avail) == net yield × ac |
| `LossWaterfall.DcSideCascade` | main.py:754-758 | temperature loss is 8% of theoretical energy, and theoretical minus the four DC-side deductions == theoretical × 0.92 × (1−soiling) × (1−dc) × efficiency |
| `LossWaterfall.DcDeductionsAreNonNegative` | main.py:754-758 | with fractions in range and non-negative POA and capacity, each DC-side deduction is ≥ 0 |
| `LossWaterfall.AcDeductionsAreNonNegative` | main.py:759-760 | with non-negative yield and AC-side fractions in [0,1), the dashboard's AC-wiring and availability bars and the corrected AC-wiring bar are all ≥ 0 |
| `LossWaterfall.AcSideCascade` | main.py:327 | corrected half of the finding below, following the chain's order: the corrected AC-wiring bar = ac × inverter output; the availability bar = avail × what the AC wiring left; the two bars bring the inverter output down to the net yield exactly |
| `LossWaterfall.AcWiringBarMatchesChain` | main.py:759 | corrected half of the finding below: the corrected AC-wiring bar equals the energy the hourly chain's AC wiring removed: ac × summed inverter output |
| `LossWaterfall.AvailabilityBarMatchesChain` | main.py:760 | the availability bar equals the energy the chain's availability loss removed: avail × what the AC wiring left of the inverter output |
| `LossWaterfall.ReadBack` | main.py:759-760 | reading back from a net yield of kWh × (1−ac)(1−avail) recovers both AC-side losses |
| `LossWaterfall.AsWrittenIsScaledAcLoss` | main.py:759 | the script's AC-wiring bar is the chain's AC-wiring bar × (1−avail) |
| `LossWaterfall.AsWrittenUnderstatesAcLoss` | main.py:759 | the script's AC-wiring bar is strictly smaller than the chain's whenever yield, ac and avail are positive |
| `LossWaterfall.AsWrittenAcLossCounterexample` | main.py:759 | for a design inside the sidebar limits (20 × 500 Wp in one string, one 100 kW inverter at 98%, 10% AC and 10% availability loss) and one full-sun hour at 25 °C, the inverter delivers 9.8 kWh and the yield is 7.938 kWh; the chain removes 0.98 kWh in AC wiring, but the script reports 0.882 kWh |
| `LossWaterfall.AsWrittenAcSideLeavesSurplus` | main.py:759-760 | the script's two AC-side bars take the inverter output down to the net yield plus avail × the corrected AC-wiring bar, not to the net yield |
| `LossWaterfall.WaterfallNeedNotClose` | main.py:754-768 | for the same design and hour, the script's bars leave 7.252 kWh, which is the height of the drawn "Net Yield" total bar, while its label is the 7.938 kWh net yield; with the corrected AC-wiring bar they leave 7.154 kWh: the waterfall does not close in general |
| `Degradation.PowIsFraction` | main.py:779 | a base in [0,1] keeps every power in [0,1] |
| `Degradation.Forecast` | main.py:778-779 | the forecast has exactly one entry per year of the analysis period |
| `Degradation.ForecastStartsAtFirstYear` | main.py:779 | entry 0 is the first-year yield in MWh, undegraded |
| `Degradation.ForecastStep` | main.py:779 | each entry is the previous one less the degradation rate's share |
| `Degradation.PowNonIncreasing` | main.py:779 | for a base in [0,1], higher powers are never larger |
| `Degradation.ForecastNonIncreasing` | main.py:779 | for yield ≥ 0 and rate in [0,1], entries are non-increasing, non-negative and at most the first-year energy |
| `Degradation.ForecastExtends` | main.py:778-779 | a one-year-longer period appends exactly one degraded year |
| `Degradation.Cumulative` | main.py:798 | a period of no years sums to 0 and a one-year period to the first-year energy in MWh |
| `Degradation.CumulativeExtends` | main.py:798 | a one-year-longer period adds exactly that year's energy to the cumulative sum |
| `Degradation.CumulativeClosedForm` | main.py:798 | cumulative × rate == first-year energy × (1 − (1−rate)^years), the geometric series |
| `Degradation.CumulativeWithoutDegradation` | main.py:798 | at rate 0 the cumulative energy is years × first-year energy |
| `Degradation.CumulativeBounds` | main.py:798 | the cumulative energy lies between 0 and years × first-year energy; with a positive rate, cumulative × rate ≤ first-year energy |
| `Comparison.PercentDelta` | main.py:453 | undefined exactly when the base is 0; otherwise delta × base == (other − base) × 100 |
| `Comparison.DeltaSign` | main.py:453 | against a positive base, the delta is positive, zero or negative exactly when the other value is larger, equal or smaller |
| `Comparison.Compare` | main.py:453-506 | the energy difference × 1000 is the yield difference in kWh; the yield and specific-yield deltas are undefined exactly when the active yield is 0, the POA delta exactly when the active POA is 0 |
| `Comparison.RevenueFollowsEnergy` | main.py:490-506 | annual revenue difference == energy difference × $0.12/kWh; its sign follows the yield difference and the yield delta; horizon figure == annual × years |
| `Comparison.SwapNegates` | main.py:468-506 | swapping the two runs negates the PR, energy and both revenue differences |
| `Comparison.EqualCapacitySpecificDelta` | main.py:459-460 | on equal DC capacities, the specific-yield delta equals the yield delta |
| `Comparison.SelfComparisonIsNeutral` | main.py:453-506 | comparing a run with itself shows zero differences and 0% deltas over every non-zero base |
| `Scenarios.Snapshot` | main.py:216-239 | the record keeps the inputs as given, and stores a ratio × AC capacity equal to the DC capacity |
| `Scenarios.LivePlant` | main.py:344-353 | the active run simulates the sidebar's efficiency and losses, with at least one module's rating in kWp and at least one inverter's rating in kWac |
| `Scenarios.PlantOf` | main.py:383-389 | the comparison run simulates the saved efficiency and losses; for a record the save button made, it is exactly the plant that was live at save time |
| `Scenarios.SnapshotReproducesLivePlant` | main.py:377-389 | re-simulating a saved scenario simulates the plant that was live when it was saved |
| `Scenarios.SidebarKeepsPlantBounded` | main.py:68-206 | within the widget limits, the plant is well formed: fractions in range, ≥ 0.1 kWp, ≥ 1 kWac, and the waterfall's divisions defined |
| `Scenarios.ComparisonView` | main.py:370-415 | the comparison view is present exactly when there is a target and its simulation succeeded |
| `Scenarios.SavedCopyComparesNeutral` | main.py:370-506 | saving the sidebar and comparing against it over the same weather year shows no PR, energy or revenue difference |
| `Scenarios.Session.constructor` | main.py:22-25 | a new session has no scenarios and comparison mode off |
| `Scenarios.Session.Save` | main.py:216-240 | the name maps to a snapshot of the current inputs, every other name keeps its scenario, a new name is listed last, and the comparison state is untouched; the store invariant is kept |
| `Scenarios.Session.SavedNames` | main.py:243-246 | the listed names are exactly the saved ones, as many as the count shown |
| `Scenarios.Session.ShowComparisonControls` | main.py:243-260 | with scenarios saved, the checkbox sets comparison mode and the select box selects a saved name; with none, nothing changes |
| `Scenarios.Session.ClearAll` | main.py:263-265 | the store is emptied and comparison mode switched off |
| `Scenarios.Session.ComparisonTarget` | main.py:370-373 | a target exists exactly when comparison mode is on, and the selected name is then always a saved one (the lookup cannot fail) |

### Notes on the code

- The degradation list is in MWh: entry 0 is the first-year yield divided by
  1000 (main.py:779).
- The waterfall's two halves need not meet. The DC side starts from the rated
  array under the annual POA and uses a flat 8% temperature loss
  (main.py:754-758). The AC side is read back from the simulated yield
  (main.py:759-760). `LossWaterfall.WaterfallNeedNotClose` gives a design
  inside the sidebar limits where they do not meet.
- The "Net Yield" bar is a Plotly "total" bar (main.py:763-768). Its drawn
  height is the running sum, that is the theoretical energy minus every loss
  bar, which is the residual `LossWaterfall.WaterfallNeedNotClose` computes.
  Only its text label is the net yield, `Waterfall.netYield`
  (y1_yield / 1000). Where the two halves do not meet, the label and the bar
  height differ.
- `ClearAll` leaves the last selected name in the session (main.py:264-265).
  Comparison mode is off afterwards, so that name is never looked up.

## Left out

- Geocoding of the site address and its fallback (main.py:33-56) is network I/O. Latitude, longitude and the location name are plain `Inputs` fields. The location fields of the session state are not part of the model.
- The weather download, solar position, transposition and the cell-temperature model (main.py:279-315) are external calls. Their hourly results are the `Hour` inputs. The mounting type only selects the temperature-model parameters, so it is only recorded.
- The simulation's catch-all error path is represented only as the `Option` of a comparison run (`targetRun`). The failed main run stops the page, which is UI.
- Caching of simulation results, all widgets and layout, charts, and the CSV export are not modelled: they are memoisation, rendering and I/O.
- Timestamp resampling: each hour carries its calendar month as an input.
- The default scenario name "Scenario N" (main.py:214) is not modelled; it is string formatting for a widget default.
- IEEE rounding is not modelled; all quantities are exact reals.
- The monthly energy difference chart of the comparison view (main.py:728) is not modelled; it is rendering only.
- `Kpis.SpecificYield`: requires a positive DC capacity. The script divides without a guard, but the sidebar limits (at least one 100 Wp module) always give at least 0.1 kWp.
- `Kpis.PerformanceRatioIsPercentage`: requires lit hours with cells at or above 25 °C (dark hours may be at any temperature). A lit hour with colder cells derates by a factor above 1, and the script does not clamp the PR.

## Findings

| source | as written | input that shows it | evidently intended | confidence | as-written member | corrected member |
|---|---|---|---|---|---|---|
| main.py:759 | the AC-wiring bar grosses the net yield up by the AC loss alone, net / (1−ac) × ac, as if AC wiring were the last stage | a design inside the sidebar limits: 20 modules of 500 Wp in one string, one 100 kW inverter at 98%, no DC losses, ac = avail = 10%; one hour at 1000 W/m² and 25 °C: the chain removes 0.98 kWh in AC wiring, but the bar shows 0.882 kWh | the AC loss as a fraction of the inverter output: net / ((1−ac)(1−avail)) × ac, since availability is applied after AC wiring (main.py:327) | not executed | `LossWaterfall.AsWrittenAcLossCounterexample` | `LossWaterfall.AcWiringBarMatchesChain` |

`LossWaterfall.Build` keeps the script's AC-wiring bar. The corrected bar is
`LossWaterfall.AcWiringLoss`, used by `LossWaterfall.BuildCorrected`, and
`LossWaterfall.AcWiringBarMatchesChain` and `LossWaterfall.AcSideCascade` are
proved about it.
