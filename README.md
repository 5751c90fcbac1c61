# Bus cost and emissions calculator — a Dafny model

This project models the numeric core of `bus_cost_emissions_analysis.py`. That script compares running a bus fleet electrically with running it on diesel. It has five parts:

- **Line split** (module `LineKm`). Each line's daily weekday and weekend km are annualised. The electric fleet covers the annual total up to an annual cap of `km_limite` × (weekdays + weekend days), and diesel support covers the rest. The all-diesel total is kept beside the two. (`calcola_km_annui`, `gestione_km_linea`)
- **Fleet totals** (module `Fleet`). The loop of `main` adds every line's split into `km_totali`. It is an imperative method over the two input lists, and Dafny proves it equal to a recursive sum.
- **One year's figures** (module `CostModel`):
  - the cash-view annual cost, which adds a fleet purchase in every replacement year;
  - the amortised annual cost;
  - the CO2 mass;
  - the per-km values;
  - the net amortisation that `main` derives from price and bonus.
- **Projection** (module `Projection`). `calcola_costo_proiezione` is an imperative method with a loop. It keeps a compounding fuel price and a one-shot flag for the one-time electrification cost. Dafny proves it equal to a closed-form series in which year k uses the base fuel price times (1 + inflation)^k.
- **Derived figures** in `main` (modules `Report` and `Cumulative`):
  - the current-year snapshot of the three scenarios;
  - savings and emission reduction;
  - percentage shares;
  - the arguments `main` passes to the projections;
  - `np.cumsum`, modelled as running prefix sums.

`round(x, 2)` is modelled by `Rounding.Round2` on exact reals: the nearest hundredth, with a tie going to the even hundredth, as Python's `round` does. Every unrounded quantity is an exact `real`. The numbers of weekdays and weekend days are parameters (`LineKm.Calendar`), and so are:

- the projection horizon (`years`);
- the inflation rates;
- the one-time cost (`oneTimeCost`, the script's `COSTI_UNA_TANTUM`);
- the per-type vehicle data (`Report.VehicleParams`).

Several functions carry no contract of their own:

- the rounding `Rounding.Round2`;
- the annual km `LineKm.AnnualKm`;
- the annual cost and emissions functions `CostModel.AnnualCost`, `CostModel.AnnualCostAmortized` and `CostModel.Emissions`;
- the projection's `Projection.FuelPriceAt`, `Projection.RunningCost`, `Projection.InitialCharge` and `Projection.YearCost`;
- the sum `Cumulative.Sum`;
- `main`'s current-year cost `Report.CurrentCost`, its rounded difference `Report.Reduction` and the snapshot `Report.CurrentYear`;
- the shares `Report.UsageSharesAsWritten` and `Report.UsageShares`;
- the argument builder `Report.MainProjection`.

Their meaning is stated in the lemmas next to them, and the table below names each such function in the rows of its lemmas. The small helpers `LineKm.TotalDays`, `LineKm.AnnualCap`, `LineKm.Min`, `LineKm.Max`, `Fleet.Plus`, `Fleet.LineSplit`, `Projection.Pow`, `Projection.ReplacementYears` and `Rounding.NearestHundredths` are plain definitions used by those lemmas. The other functions (`LineKm.SplitLineKm`, `CostModel.PerKm`, `CostModel.NetAmortization`, `Fleet.Zip`, `Fleet.FleetSum`, `Projection.Series`, `Cumulative.RunningTotals`, `Cumulative.CumulativeSums`) state their properties in their own `ensures`. The imperative parts, the fleet loop and the projection loop, are methods proved against these functions.

The model follows the code; in particular:

- The electric cap is applied to the **annual** total against `km_limite × (GIORNI_FERIALI + GIORNI_WEEKEND)` (lines 59-60). It is not applied per day type. With 250 weekdays and 115 weekend days, a 100/50 km line against a 60 km range gives 21900 electric km and 8850 diesel km (`LineKm.AnnualCapExample`); a per-day-type rule would give 20750/10000. A 130 km weekday line within a 120 km range overall runs entirely electric (`LineKm.AnnualCapNotPerDayType`).
- The code computes no support-vehicle count. Every scenario uses the same `num_bus`.
- `calcola_costo_per_km` and `calcola_emissioni_per_km` have the same body, so both are `CostModel.PerKm`.

## Model

| member | source | states |
|---|---|---|
| Rounding.Round2Bounds | bus_cost_emissions_analysis.py:37 | Round2, the model of round(x, 2): it is a whole number of hundredths within half a hundredth of x |
| Rounding.Round2OnGrid | bus_cost_emissions_analysis.py:37 | an amount already in whole hundredths is returned unchanged |
| Rounding.Round2Idempotent | bus_cost_emissions_analysis.py:37 | rounding a rounded amount changes nothing |
| Rounding.Round2Monotone | bus_cost_emissions_analysis.py:37 | rounding preserves order: x <= y implies round(x) <= round(y) |
| Rounding.Round2TiesToEven | bus_cost_emissions_analysis.py:37 | a tie goes to the even hundredth (0.125 to 0.12, 0.375 to 0.38) |
| LineKm.SplitLineKm | bus_cost_emissions_analysis.py:52-62 | all-diesel km == LineKm.AnnualKm (calcola_km_annui: weekday km × weekdays + weekend km × weekend days); electric + extra == all-diesel (conservation); extra >= 0; electric <= cap and <= total; extra == 0 iff total <= cap, electric == total iff total <= cap; above the cap, electric == cap |
| LineKm.WithinDailyRangeAllElectric | bus_cost_emissions_analysis.py:57-60 | a line within the daily range on both day types has no diesel extra and runs all its annual km electric |
| LineKm.AnnualCapNotPerDayType | bus_cost_emissions_analysis.py:59-60 | the cap is on the annual total: a 130 km weekday beyond a 120 km range is absorbed by short weekends (38250 km, all electric) |
| LineKm.AnnualCapExample | bus_cost_emissions_analysis.py:52-62 | 100/50 km over 250/115 days: range 60 gives (21900, 8850, 30750); range 120 gives (30750, 0, 30750) |
| Fleet.Zip | bus_cost_emissions_analysis.py:115 | zip pairs entry i of both lists, up to the shorter list's length |
| Fleet.FleetSum | bus_cost_emissions_analysis.py:113-120 | fleet-wide electric + extra == all-diesel; extra >= 0; electric <= lines × annual cap |
| Fleet.AccumulateFleetKm | bus_cost_emissions_analysis.py:113-120 | the in-place loop ends with each of the three totals equal to the sum over the zipped lines of that line's split |
| Fleet.FleetSumAppend | bus_cost_emissions_analysis.py:113-120 | the totals of two groups of lines add component-wise |
| Fleet.FleetSumRemove | bus_cost_emissions_analysis.py:113-120 | removing any line removes exactly its own split from the totals |
| Fleet.FleetSumPermutation | bus_cost_emissions_analysis.py:115-120 | any reordering of the lines (equal multisets) gives the same totals |
| CostModel.CashViewReplacementTerm | bus_cost_emissions_analysis.py:31-44 | before rounding, the cash view CostModel.AnnualCost (calcola_costo_annuale) exceeds the amortised cost CostModel.AnnualCostAmortized (calcola_costo_annuale_con_ammortamento) by busPrice × numBus exactly in a replacement year (year % period == 0 and year != 0), and equals it in every other year |
| CostModel.AnnualCostBounds | bus_cost_emissions_analysis.py:31-44 | both annual costs are whole cents within half a cent of their exact values |
| CostModel.AnnualCostVersusAmortized | bus_cost_emissions_analysis.py:31-44 | after rounding, the two costs are equal outside replacement years, and within a cent of differing by the fleet purchase in one |
| CostModel.EmissionsBounds | bus_cost_emissions_analysis.py:47-49 | CostModel.Emissions (calcola_emissioni_co2) is whole hundredths within half a hundredth of km × factor × buses, and zero when any of the three is zero |
| CostModel.SplitEmissionsConserved | bus_cost_emissions_analysis.py:47-49 | with a line's km partitioned (electric + support == total), the unrounded CO2 of the two parts at one emission factor is exactly that of the total |
| CostModel.PerKm | bus_cost_emissions_analysis.py:65-70 | zero when the km are zero; otherwise whole hundredths within half a hundredth of total / km |
| CostModel.PerKmRecoversTotal | bus_cost_emissions_analysis.py:65-66 | per-km value × km recovers the total to within half a hundredth per km |
| CostModel.NetAmortization | bus_cost_emissions_analysis.py:122-125 | one period of annual charges recovers the price net of the bonus; the charge lies in [0, net] when the net price is non-negative |
| Cumulative.RunningTotals | bus_cost_emissions_analysis.py:174-186 | entry k is the starting amount plus the sum of years 0..k |
| Cumulative.CumulativeSums | bus_cost_emissions_analysis.py:174-186 | np.cumsum: same length, entry k is the sum of years 0..k |
| Cumulative.CumulativeSumsInverse | bus_cost_emissions_analysis.py:174-186 | differencing the cumulative series gives the yearly series back; its last entry is the total |
| Cumulative.CumulativeSumsMonotone | bus_cost_emissions_analysis.py:174-186 | with no negative year, the cumulative cost never decreases |
| Projection.Series | bus_cost_emissions_analysis.py:75-95 | n costs, entry k being Projection.YearCost(p, k): that year's annual cost (amortised or cash view) at the compounded fuel price, plus the year-0 charge |
| Projection.FuelPriceCompounds | bus_cost_emissions_analysis.py:78-94 | year 0 uses the base fuel price, and each later year the previous year's price × (1 + inflation) |
| Projection.ProjectCosts | bus_cost_emissions_analysis.py:73-95 | the loop returns exactly one cost per year of range(years): year k at the base price compounded k times, with the initial purchase and the one-time cost in year 0 only |
| Projection.YearCostOfTag | bus_cost_emissions_analysis.py:87-91 | in any one year the electric scenario costs the same as any other tag, plus the one-time cost in year 0 only |
| Projection.OneTimeCostChargedOnce | bus_cost_emissions_analysis.py:77-91 | over a whole projection, the electric series differs from any other tag's only in year 0, by exactly the one-time cost, and so do their sums |
| Projection.AmortizedSeriesFlat | bus_cost_emissions_analysis.py:79-88 | with amortisation and constant fuel price, every year after 0 costs the same, so no replacement is ever added; year 0 exceeds the rest by the fleet purchase plus, for electric, the one-time cost |
| Projection.CashViewSpikes | bus_cost_emissions_analysis.py:79-85 | the cash-view series equals the amortised series outside replacement years, and in each replacement year lies within a cent of it plus the fleet purchase |
| Projection.ReplacementYearsCount | bus_cost_emissions_analysis.py:35 | a projection of n years holds (n - 1) / period replacement years |
| Report.CurrentCostIsAmortized | bus_cost_emissions_analysis.py:127-152 | Report.CurrentCost, each current-year cost of Report.CurrentYear (main's calls to calcola_costo_annuale), uses year 0, never a replacement year, so it equals the amortised running cost |
| Report.CurrentCostNear | bus_cost_emissions_analysis.py:127-152 | each current-year cost is within half a cent of the exact amortised running cost |
| Report.RoundedDifferenceBound | bus_cost_emissions_analysis.py:198-201 | Report.Reduction, round(full - (electric + extra), 2): rounding a difference of three half-cent-accurate amounts is within two hundredths of the exact difference |
| Report.SplitCostReduction | bus_cost_emissions_analysis.py:198-199 | with km conserved, the rounded saving is within 0.02 of the diesel fuel the electric km avoid less the electric fleet's running cost |
| Report.SavingsIsAvoidedDieselFuel | bus_cost_emissions_analysis.py:198-199 | the same, for the savings field of the snapshot Report.CurrentYear |
| Report.SplitEmissionsReduction | bus_cost_emissions_analysis.py:200-201 | with km conserved, the rounded reduction is within 0.02 of electric km × (diesel factor − electric factor) × buses |
| Report.EmissionReductionIsElectricKm | bus_cost_emissions_analysis.py:200-201 | the same, for the emission reduction field of the snapshot Report.CurrentYear |
| Report.BaselineShareAlwaysHalf | bus_cost_emissions_analysis.py:203-208 | Report.UsageSharesAsWritten (the shares as main computes them): with km conserved, the all-diesel share is always 50 and the electric and support shares add up to 50 within 0.01; with no km every share is 0 |
| Report.AllElectricLineReportedAsHalf | bus_cost_emissions_analysis.py:203-208 | as written, a fleet that is entirely electric (30750, 0, 30750) is reported as 50 / 0 / 50 |
| Report.UsageSharesAddUp | bus_cost_emissions_analysis.py:203-208 | Report.UsageShares, the corrected shares over the annual km: electric + support == 100 within 0.01; a fleet within range is 100 / 0; with no km every share is 0 |
| Report.AmortizedProjectionMatchesCurrentYear | bus_cost_emissions_analysis.py:173-186 | for the amortised projection main runs (Report.MainProjection: the price net of the bonus), without inflation every year after 0 costs exactly the current-year cost of lines 127-152, and year 0 adds the fleet at the net price plus, for electric, the one-time cost |

## Left out

- Loading the JSON configuration (lines 9-28) is I/O. The loaded values are parameters: `Calendar`, `VehicleParams`, the inflation rates, `oneTimeCost` and `years`.
- The Streamlit inputs and the report text (lines 99-111, 211-252) are UI. The model takes the two km lists and `num_bus` as inputs.
- The matplotlib, seaborn and pandas charts (lines 254-338) are presentation over foreign libraries.
- IEEE-754 floating point is not modelled. Sums, products and divisions are exact reals. `round(x, 2)` rounds the exact value to the nearest hundredth, ties to even, so the binary representation of decimal inputs and its effect on ties are not captured.
- No support-vehicle count and no per-day-type range check are modelled, because the code has neither.
- Report.SavingsIsAvoidedDieselFuel: states the saving only to within 0.02 of the exact value, because the script combines four separately rounded figures.
- Report.EmissionReductionIsElectricKm: states the reduction only to within 0.02 of the exact value, for the same reason.
- The corrected shares `Report.UsageShares` feed nothing further inside the model, because the script only displays the shares.

## Findings

| source | as written | input that shows it | evidently intended | confidence | as-written member | corrected member |
|---|---|---|---|---|---|---|
| bus_cost_emissions_analysis.py:203-208 | each share divides by `sum(km_totali.values())` = electric + diesel_extra + diesel_completo, which counts every km twice because diesel_completo already holds the other two | one line of 100 km on weekdays and 50 km on weekend days, 250 + 115 days, range 120: totals (30750, 0, 30750) are reported as 50 % electric, 0 % support, 50 % all-diesel | shares of the annual km (diesel_completo): 100 % electric, 0 % support | medium, not executed | Report.BaselineShareAlwaysHalf | Report.UsageSharesAddUp |
