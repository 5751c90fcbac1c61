/** The derived figures main computes from the fleet totals: the current-year
    costs and CO2 of the three scenarios, their per-km values, the savings, the
    emission reduction and the percentage shares of the annual km. */
module Report {
  import opened Rounding
  import opened LineKm
  import opened CostModel
  import opened Projection

  /** One vehicle type of the configuration (dati_bus["elettrico"], dati_bus["diesel"]). */
  datatype VehicleParams = VehicleParams(
    fuelPrice: real,       // costo_carburante
    consumption: real,     // consumo
    maintenance: real,     // costo_manutenzione
    purchasePrice: real,   // costo_iniziale
    bonus: real,           // bonus
    period: int,           // periodo_ammortamento
    emissionFactor: real,  // emissioni
    rangeLimit: real)      // km_limite (main reads it for the electric type only)

  /** A scenario's current-year cost as main asks for it: year 0, the net
      amortisation, the gross purchase price as the replacement price. */
  function CurrentCost(km: real, v: VehicleParams, numBus: int): real
    requires v.period > 0
  {
    AnnualCost(km, v.fuelPrice, v.consumption, v.maintenance, numBus,
               NetAmortization(v.purchasePrice, v.bonus, v.period), 0, v.period, v.purchasePrice)
  }

  /** The current-year figures of the three scenarios: electric, diesel
      support, and all diesel. */
  datatype Snapshot = Snapshot(
    costElectric: real, costDieselExtra: real, costDieselFull: real,
    emissionsElectric: real, emissionsDieselExtra: real, emissionsDieselFull: real,
    costPerKmElectric: real, costPerKmDieselExtra: real, costPerKmDieselFull: real,
    emissionsPerKmElectric: real, emissionsPerKmDieselExtra: real, emissionsPerKmDieselFull: real,
    savings: real, emissionReduction: real)

  function CurrentYear(km: KmSplit, electric: VehicleParams, diesel: VehicleParams, numBus: int): Snapshot
    requires electric.period > 0 && diesel.period > 0
  {
    var costE := CurrentCost(km.electric, electric, numBus);
    var costX := CurrentCost(km.dieselExtra, diesel, numBus);
    var costD := CurrentCost(km.dieselFull, diesel, numBus);
    var emE := Emissions(km.electric, electric.emissionFactor, numBus);
    var emX := Emissions(km.dieselExtra, diesel.emissionFactor, numBus);
    var emD := Emissions(km.dieselFull, diesel.emissionFactor, numBus);
    Snapshot(costE, costX, costD, emE, emX, emD,
             PerKm(costE, km.electric), PerKm(costX, km.dieselExtra), PerKm(costD, km.dieselFull),
             PerKm(emE, km.electric), PerKm(emX, km.dieselExtra), PerKm(emD, km.dieselFull),
             Reduction(costD, costE, costX), Reduction(emD, emE, emX))
  }

  /** What the electric scenario saves against the all-diesel one: the all-diesel
      figure less the sum of the electric and support figures, rounded. */
  function Reduction(full: real, electric: real, extra: real): real {
    Round2(full - (electric + extra))
  }

  /** Year 0 is never a replacement year, so each current-year cost is the
      amortised running cost: no purchase is added. */
  lemma CurrentCostIsAmortized(km: real, v: VehicleParams, numBus: int)
    requires v.period > 0
    ensures CurrentCost(km, v, numBus)
            == AnnualCostAmortized(km, v.fuelPrice, v.consumption, v.maintenance, numBus,
                                   NetAmortization(v.purchasePrice, v.bonus, v.period))
  {
    AnnualCostVersusAmortized(km, v.fuelPrice, v.consumption, v.maintenance, numBus,
                              NetAmortization(v.purchasePrice, v.bonus, v.period), 0, v.period, v.purchasePrice);
  }

  /** Rounding the difference of three amounts that are each within half a
      hundredth of their exact values is within two hundredths of the exact
      difference. */
  lemma RoundedDifferenceBound(full: real, a: real, b: real, rFull: real, rA: real, rB: real, exact: real)
    requires Abs(rFull - full) <= 0.005 && Abs(rA - a) <= 0.005 && Abs(rB - b) <= 0.005
    requires full - a - b == exact
    ensures Abs(Reduction(rFull, rA, rB) - exact) <= 0.02
  {
    Round2Bounds(rFull - (rA + rB));
  }

  /** With the km conserved, what the all-diesel fleet emits beyond the
      support fleet and the electric fleet is the electric km at the factor gap. */
  lemma SplitEmissionsIdentity(km: KmSplit, fe: real, fd: real, numBus: int)
    requires km.electric + km.dieselExtra == km.dieselFull
    ensures RawEmissions(km.dieselFull, fd, numBus) - RawEmissions(km.electric, fe, numBus)
            - RawEmissions(km.dieselExtra, fd, numBus)
            == km.electric * (fd - fe) * numBus as real
  {
    var e, n := km.electric, numBus as real;
    SplitEmissionsConserved(e, km.dieselExtra, km.dieselFull, fd, numBus);
    assert e * (fd - fe) * n == e * fd * n - e * fe * n;
  }

  /** Each scenario's CO2 is within half a hundredth of its exact value. */
  lemma SplitEmissionsNear(km: KmSplit, fe: real, fd: real, numBus: int)
    ensures Abs(Emissions(km.dieselFull, fd, numBus) - RawEmissions(km.dieselFull, fd, numBus)) <= 0.005
    ensures Abs(Emissions(km.electric, fe, numBus) - RawEmissions(km.electric, fe, numBus)) <= 0.005
    ensures Abs(Emissions(km.dieselExtra, fd, numBus) - RawEmissions(km.dieselExtra, fd, numBus)) <= 0.005
  {
    EmissionsBounds(km.dieselFull, fd, numBus);
    EmissionsBounds(km.electric, fe, numBus);
    EmissionsBounds(km.dieselExtra, fd, numBus);
  }

  /** The reduction of the three scenarios' CO2 is the electric km at the
      factor gap, to within the four roundings. */
  lemma SplitEmissionsReduction(km: KmSplit, fe: real, fd: real, numBus: int)
    requires km.electric + km.dieselExtra == km.dieselFull
    ensures Abs(Reduction(Emissions(km.dieselFull, fd, numBus), Emissions(km.electric, fe, numBus),
                          Emissions(km.dieselExtra, fd, numBus))
                - km.electric * (fd - fe) * numBus as real) <= 0.02
  {
    SplitEmissionsNear(km, fe, fd, numBus);
    SplitEmissionsIdentity(km, fe, fd, numBus);
    RoundedDifferenceBound(RawEmissions(km.dieselFull, fd, numBus), RawEmissions(km.electric, fe, numBus),
                           RawEmissions(km.dieselExtra, fd, numBus), Emissions(km.dieselFull, fd, numBus),
                           Emissions(km.electric, fe, numBus), Emissions(km.dieselExtra, fd, numBus),
                           km.electric * (fd - fe) * numBus as real);
  }

  /** main's emission reduction is what the electric km save: electric km
      times the gap between the diesel and electric emission factors times
      the buses, to within the four roundings. */
  lemma EmissionReductionIsElectricKm(km: KmSplit, electric: VehicleParams, diesel: VehicleParams, numBus: int)
    requires electric.period > 0 && diesel.period > 0
    requires km.electric + km.dieselExtra == km.dieselFull
    ensures Abs(CurrentYear(km, electric, diesel, numBus).emissionReduction
                - km.electric * (diesel.emissionFactor - electric.emissionFactor) * numBus as real) <= 0.02
  {
    SplitEmissionsReduction(km, electric.emissionFactor, diesel.emissionFactor, numBus);
  }

  /** With the km conserved, the all-diesel running cost exceeds the support
      fleet's by the diesel fuel of the electric km: maintenance and
      amortisation are charged per bus, not per km. */
  lemma SplitCostIdentity(km: KmSplit, diesel: VehicleParams, numBus: int)
    requires diesel.period > 0
    requires km.electric + km.dieselExtra == km.dieselFull
    ensures var a := NetAmortization(diesel.purchasePrice, diesel.bonus, diesel.period);
            RawAnnualCostAmortized(km.dieselFull, diesel.fuelPrice, diesel.consumption, diesel.maintenance, numBus, a)
            - RawAnnualCostAmortized(km.dieselExtra, diesel.fuelPrice, diesel.consumption, diesel.maintenance,
                                     numBus, a)
            == km.electric * diesel.consumption * diesel.fuelPrice * numBus as real
  {
    var a := NetAmortization(diesel.purchasePrice, diesel.bonus, diesel.period);
    var e, x, t, n := km.electric, km.dieselExtra, km.dieselFull, numBus as real;
    var c, f, m := diesel.consumption, diesel.fuelPrice, diesel.maintenance;
    assert t * c * f == e * c * f + x * c * f;
    assert (t * c * f + m + a) * n - (x * c * f + m + a) * n == (t * c * f - x * c * f) * n;
  }

  /** A scenario's current-year cost is within half a cent of its exact
      amortised running cost. */
  lemma CurrentCostNear(km: real, v: VehicleParams, numBus: int)
    requires v.period > 0
    ensures Abs(CurrentCost(km, v, numBus)
                - RawAnnualCostAmortized(km, v.fuelPrice, v.consumption, v.maintenance, numBus,
                                         NetAmortization(v.purchasePrice, v.bonus, v.period))) <= 0.005
  {
    var a := NetAmortization(v.purchasePrice, v.bonus, v.period);
    CurrentCostIsAmortized(km, v, numBus);
    AnnualCostBounds(km, v.fuelPrice, v.consumption, v.maintenance, numBus, a, 0, v.period, v.purchasePrice);
  }

  /** The reduction of the three scenarios' costs is the diesel fuel of the
      electric km less the electric running cost, to within the four roundings. */
  lemma SplitCostReduction(km: KmSplit, electric: VehicleParams, diesel: VehicleParams, numBus: int)
    requires electric.period > 0 && diesel.period > 0
    requires km.electric + km.dieselExtra == km.dieselFull
    ensures Abs(Reduction(CurrentCost(km.dieselFull, diesel, numBus), CurrentCost(km.electric, electric, numBus),
                          CurrentCost(km.dieselExtra, diesel, numBus))
                - (km.electric * diesel.consumption * diesel.fuelPrice * numBus as real
                   - RawAnnualCostAmortized(km.electric, electric.fuelPrice, electric.consumption,
                                            electric.maintenance, numBus,
                                            NetAmortization(electric.purchasePrice, electric.bonus, electric.period))))
            <= 0.02
  {
    var aE := NetAmortization(electric.purchasePrice, electric.bonus, electric.period);
    var aD := NetAmortization(diesel.purchasePrice, diesel.bonus, diesel.period);
    var c, f, m := diesel.consumption, diesel.fuelPrice, diesel.maintenance;
    CurrentCostNear(km.electric, electric, numBus);
    CurrentCostNear(km.dieselExtra, diesel, numBus);
    CurrentCostNear(km.dieselFull, diesel, numBus);
    SplitCostIdentity(km, diesel, numBus);
    var rawE := RawAnnualCostAmortized(km.electric, electric.fuelPrice, electric.consumption,
                                       electric.maintenance, numBus, aE);
    RoundedDifferenceBound(RawAnnualCostAmortized(km.dieselFull, f, c, m, numBus, aD), rawE,
                           RawAnnualCostAmortized(km.dieselExtra, f, c, m, numBus, aD),
                           CurrentCost(km.dieselFull, diesel, numBus), CurrentCost(km.electric, electric, numBus),
                           CurrentCost(km.dieselExtra, diesel, numBus),
                           km.electric * c * f * numBus as real - rawE);
  }

  /** main's savings are the diesel fuel the electric km avoid, less the
      electric fleet's running cost, to within the four roundings: the diesel
      support scenario runs the same buses, so maintenance and amortisation cancel. */
  lemma SavingsIsAvoidedDieselFuel(km: KmSplit, electric: VehicleParams, diesel: VehicleParams, numBus: int)
    requires electric.period > 0 && diesel.period > 0
    requires km.electric + km.dieselExtra == km.dieselFull
    ensures Abs(CurrentYear(km, electric, diesel, numBus).savings
                - (km.electric * diesel.consumption * diesel.fuelPrice * numBus as real
                   - RawAnnualCostAmortized(km.electric, electric.fuelPrice, electric.consumption,
                                            electric.maintenance, numBus,
                                            NetAmortization(electric.purchasePrice, electric.bonus, electric.period))))
            <= 0.02
  {
    SplitCostReduction(km, electric, diesel, numBus);
  }

  /** The percentage shares as main computes them: each of the three totals
      over the sum of all three, zero when that sum is zero. */
  function UsageSharesAsWritten(km: KmSplit): (real, real, real) {
    var total := km.electric + km.dieselExtra + km.dieselFull;
    if total != 0.0 then
      (Round2(km.electric / total * 100.0), Round2(km.dieselExtra / total * 100.0),
       Round2(km.dieselFull / total * 100.0))
    else (0.0, 0.0, 0.0)
  }

  /** Two rounded percentages of one total add up to the percentage of their
      sum, to within a hundredth. */
  lemma RoundedSharesSum(a: real, b: real, total: real)
    requires total != 0.0
    ensures Abs(Round2(a / total * 100.0) + Round2(b / total * 100.0) - (a + b) / total * 100.0) <= 0.01
  {
    SharesAdd(a, b, total);
    RoundedSumBound(a / total * 100.0, b / total * 100.0, (a + b) / total * 100.0);
  }

  lemma SharesAdd(a: real, b: real, total: real)
    requires total != 0.0
    ensures a / total * 100.0 + b / total * 100.0 == (a + b) / total * 100.0
  {
    assert a / total + b / total == (a + b) / total;
  }

  /** The sum of two rounded amounts is within a hundredth of the exact sum. */
  lemma RoundedSumBound(x: real, y: real, sum: real)
    requires x + y == sum
    ensures Abs(Round2(x) + Round2(y) - sum) <= 0.01
  {
    Round2Bounds(x);
    Round2Bounds(y);
  }

  /** The sum of the three totals counts every km twice, since the all-diesel
      total already holds the other two: the all-diesel share is always 50 %
      and the electric and support shares add up to 50 %, not 100 %. */
  lemma BaselineShareAlwaysHalf(km: KmSplit)
    requires km.electric + km.dieselExtra == km.dieselFull
    ensures km.dieselFull != 0.0 ==> UsageSharesAsWritten(km).2 == 50.0
    ensures km.dieselFull != 0.0 ==> Abs(UsageSharesAsWritten(km).0 + UsageSharesAsWritten(km).1 - 50.0) <= 0.01
    ensures km.dieselFull == 0.0 ==> UsageSharesAsWritten(km) == (0.0, 0.0, 0.0)
  {
    var total := km.electric + km.dieselExtra + km.dieselFull;
    assert total == 2.0 * km.dieselFull;
    if km.dieselFull != 0.0 {
      assert km.dieselFull / total * 100.0 == 50.0;
      assert (km.electric + km.dieselExtra) / total * 100.0 == 50.0;
      Round2OnGrid(50.0);
      RoundedSharesSum(km.electric, km.dieselExtra, total);
    }
  }

  /** One line entirely within range: the electric fleet covers every km, yet
      main reports a 50 % electric share. */
  lemma AllElectricLineReportedAsHalf()
    ensures UsageSharesAsWritten(KmSplit(30750.0, 0.0, 30750.0)) == (50.0, 0.0, 50.0)
  {
    BaselineShareAlwaysHalf(KmSplit(30750.0, 0.0, 30750.0));
    Round2OnGrid(0.0);
  }

  /** The shares of the annual km: electric and diesel support over the
      all-diesel total, which is then 100 %; zero when no km is run. */
  function UsageShares(km: KmSplit): (real, real, real) {
    if km.dieselFull != 0.0 then
      (Round2(km.electric / km.dieselFull * 100.0), Round2(km.dieselExtra / km.dieselFull * 100.0), 100.0)
    else (0.0, 0.0, 0.0)
  }

  /** The electric and support shares add up to 100 %, to within the
      rounding; a fleet within range is 100 % electric; no km gives no shares. */
  lemma UsageSharesAddUp(km: KmSplit)
    requires km.electric + km.dieselExtra == km.dieselFull
    ensures km.dieselFull != 0.0 ==> Abs(UsageShares(km).0 + UsageShares(km).1 - 100.0) <= 0.01
    ensures km.dieselFull != 0.0 && km.dieselExtra == 0.0 ==> UsageShares(km) == (100.0, 0.0, 100.0)
    ensures km.dieselFull == 0.0 ==> UsageShares(km) == (0.0, 0.0, 0.0)
  {
    var t := km.dieselFull;
    if t != 0.0 {
      assert (km.electric + km.dieselExtra) / t * 100.0 == 100.0;
      RoundedSharesSum(km.electric, km.dieselExtra, t);
      if km.dieselExtra == 0.0 {
        assert km.electric / t * 100.0 == 100.0;
        assert km.dieselExtra / t * 100.0 == 0.0;
        Round2OnGrid(100.0);
        Round2OnGrid(0.0);
      }
    }
  }

  /** The arguments main passes to calcola_costo_proiezione for one vehicle
      type: the annual km of the scenario and the purchase price net of the bonus. */
  function MainProjection(kmAnnual: real, v: VehicleParams, inflation: real, busType: string, numBus: int,
                          amortized: bool, oneTimeCost: real): ProjectionParams
  {
    ProjectionParams(kmAnnual, v.consumption, v.maintenance, v.purchasePrice - v.bonus, v.fuelPrice,
                     inflation, v.period, busType, numBus, amortized, oneTimeCost)
  }

  /** main's amortised projection agrees with its current-year figure: without
      inflation, every year after 0 costs exactly the current-year cost, and
      year 0 adds the fleet bought at the net price and, for the electric
      scenario, the one-time cost. */
  lemma AmortizedProjectionMatchesCurrentYear(km: real, v: VehicleParams, busType: string, numBus: int,
                                              oneTimeCost: real, k: nat)
    requires v.period > 0
    ensures k > 0 ==> YearCost(MainProjection(km, v, 0.0, busType, numBus, true, oneTimeCost), k)
                      == CurrentCost(km, v, numBus)
    ensures k == 0 ==> YearCost(MainProjection(km, v, 0.0, busType, numBus, true, oneTimeCost), k)
                       == CurrentCost(km, v, numBus) + (v.purchasePrice - v.bonus) * numBus as real
                          + (if busType == ELECTRIC then oneTimeCost else 0.0)
  {
    var p := MainProjection(km, v, 0.0, busType, numBus, true, oneTimeCost);
    PowOfOne(k);
    assert FuelPriceAt(p, k) == v.fuelPrice;
    CurrentCostIsAmortized(km, v, numBus);
  }
}
