/** One year's cost and CO2 for a fleet (calcola_costo_annuale,
    calcola_costo_annuale_con_ammortamento, calcola_emissioni_co2,
    calcola_costo_per_km, calcola_emissioni_per_km). The functions compute
    just as the source does; what they mean is stated by the lemmas after them. */
module CostModel {
  import opened Rounding

  /** The year's running cost of numBus buses, amortisation included, before rounding. */
  function RawAnnualCostAmortized(kmAnnual: real, fuelPrice: real, consumption: real, maintenance: real,
                                  numBus: int, annualAmortization: real): real
  {
    var fuelCost := kmAnnual * consumption * fuelPrice;
    (fuelCost + maintenance + annualAmortization) * numBus as real
  }

  /** A replacement year: a non-zero multiple of the amortisation period. */
  predicate IsReplacementYear(year: int, period: int)
    requires period > 0
  {
    year % period == 0 && year != 0
  }

  /** The cash-view cost before rounding. */
  function RawAnnualCost(kmAnnual: real, fuelPrice: real, consumption: real, maintenance: real,
                         numBus: int, annualAmortization: real, year: int, period: int, busPrice: real): real
    requires period > 0
  {
    var fuelCost := kmAnnual * consumption * fuelPrice;
    var total := (fuelCost + maintenance + annualAmortization) * numBus as real;
    if year % period == 0 && year != 0 then total + busPrice * numBus as real else total
  }

  /** calcola_costo_annuale_con_ammortamento. */
  function AnnualCostAmortized(kmAnnual: real, fuelPrice: real, consumption: real, maintenance: real,
                               numBus: int, annualAmortization: real): real
  {
    Round2(RawAnnualCostAmortized(kmAnnual, fuelPrice, consumption, maintenance, numBus, annualAmortization))
  }

  /** calcola_costo_annuale. */
  function AnnualCost(kmAnnual: real, fuelPrice: real, consumption: real, maintenance: real,
                      numBus: int, annualAmortization: real, year: int, period: int, busPrice: real): real
    requires period > 0
  {
    Round2(RawAnnualCost(kmAnnual, fuelPrice, consumption, maintenance, numBus, annualAmortization,
                         year, period, busPrice))
  }

  /** Before rounding, the cash view is the amortised cost plus the purchase
      of the whole fleet in a replacement year, and equal to it in any other year. */
  lemma CashViewReplacementTerm(kmAnnual: real, fuelPrice: real, consumption: real, maintenance: real,
                                numBus: int, annualAmortization: real, year: int, period: int, busPrice: real)
    requires period > 0
    ensures IsReplacementYear(year, period) ==>
              RawAnnualCost(kmAnnual, fuelPrice, consumption, maintenance, numBus, annualAmortization,
                            year, period, busPrice)
              - RawAnnualCostAmortized(kmAnnual, fuelPrice, consumption, maintenance, numBus, annualAmortization)
              == busPrice * numBus as real
    ensures !IsReplacementYear(year, period) ==>
              RawAnnualCost(kmAnnual, fuelPrice, consumption, maintenance, numBus, annualAmortization,
                            year, period, busPrice)
              == RawAnnualCostAmortized(kmAnnual, fuelPrice, consumption, maintenance, numBus, annualAmortization)
  {
  }

  /** Both annual costs are whole cents within half a cent of their unrounded values. */
  lemma AnnualCostBounds(kmAnnual: real, fuelPrice: real, consumption: real, maintenance: real,
                         numBus: int, annualAmortization: real, year: int, period: int, busPrice: real)
    requires period > 0
    ensures var r := AnnualCostAmortized(kmAnnual, fuelPrice, consumption, maintenance, numBus, annualAmortization);
            OnCentGrid(r)
            && Abs(r - RawAnnualCostAmortized(kmAnnual, fuelPrice, consumption, maintenance, numBus,
                                              annualAmortization)) <= 0.005
    ensures var r := AnnualCost(kmAnnual, fuelPrice, consumption, maintenance, numBus, annualAmortization,
                                year, period, busPrice);
            OnCentGrid(r)
            && Abs(r - RawAnnualCost(kmAnnual, fuelPrice, consumption, maintenance, numBus, annualAmortization,
                                     year, period, busPrice)) <= 0.005
  {
    Round2Bounds(RawAnnualCostAmortized(kmAnnual, fuelPrice, consumption, maintenance, numBus, annualAmortization));
    Round2Bounds(RawAnnualCost(kmAnnual, fuelPrice, consumption, maintenance, numBus, annualAmortization,
                               year, period, busPrice));
  }

  /** After rounding: the two annual costs agree outside replacement years,
      and in a replacement year the cash view exceeds the amortised cost by the
      fleet's purchase price to within a cent. */
  lemma AnnualCostVersusAmortized(kmAnnual: real, fuelPrice: real, consumption: real, maintenance: real,
                                  numBus: int, annualAmortization: real, year: int, period: int, busPrice: real)
    requires period > 0
    ensures !IsReplacementYear(year, period) ==>
              AnnualCost(kmAnnual, fuelPrice, consumption, maintenance, numBus, annualAmortization,
                         year, period, busPrice)
              == AnnualCostAmortized(kmAnnual, fuelPrice, consumption, maintenance, numBus, annualAmortization)
    ensures IsReplacementYear(year, period) ==>
              Abs(AnnualCost(kmAnnual, fuelPrice, consumption, maintenance, numBus, annualAmortization,
                             year, period, busPrice)
                  - AnnualCostAmortized(kmAnnual, fuelPrice, consumption, maintenance, numBus, annualAmortization)
                  - busPrice * numBus as real) <= 0.01
  {
    CashViewReplacementTerm(kmAnnual, fuelPrice, consumption, maintenance, numBus, annualAmortization,
                            year, period, busPrice);
    AnnualCostBounds(kmAnnual, fuelPrice, consumption, maintenance, numBus, annualAmortization,
                     year, period, busPrice);
  }

  /** The year's CO2 mass of numBus buses before rounding. */
  function RawEmissions(kmAnnual: real, emissionFactor: real, numBus: int): real {
    kmAnnual * emissionFactor * numBus as real
  }

  /** calcola_emissioni_co2. */
  function Emissions(kmAnnual: real, emissionFactor: real, numBus: int): real {
    Round2(RawEmissions(kmAnnual, emissionFactor, numBus))
  }

  /** The year's CO2 is a whole number of hundredths within half a hundredth
      of km times factor times buses, and zero when any of the three is. */
  lemma EmissionsBounds(kmAnnual: real, emissionFactor: real, numBus: int)
    ensures OnCentGrid(Emissions(kmAnnual, emissionFactor, numBus))
    ensures Abs(Emissions(kmAnnual, emissionFactor, numBus) - kmAnnual * emissionFactor * numBus as real) <= 0.005
    ensures kmAnnual == 0.0 || emissionFactor == 0.0 || numBus == 0 ==> Emissions(kmAnnual, emissionFactor, numBus) == 0.0
  {
    Round2Bounds(RawEmissions(kmAnnual, emissionFactor, numBus));
    if kmAnnual == 0.0 || emissionFactor == 0.0 || numBus == 0 {
      Round2OnGrid(0.0);
    }
  }

  /** When the km of a line are partitioned into an electric part e and a
      support part x (e + x == t), running both parts at one emission factor
      emits exactly the CO2 of running all t km, before rounding: the split
      neither loses nor adds emissions. */
  lemma SplitEmissionsConserved(e: real, x: real, t: real, emissionFactor: real, numBus: int)
    requires e + x == t
    ensures RawEmissions(e, emissionFactor, numBus) + RawEmissions(x, emissionFactor, numBus)
            == RawEmissions(t, emissionFactor, numBus)
  {
    assert (e + x) * emissionFactor == e * emissionFactor + x * emissionFactor;
  }

  /** calcola_costo_per_km and calcola_emissioni_per_km (the two have the same
      body): a total per km, rounded to two decimals, and zero when no km is run. */
  function PerKm(total: real, kmAnnual: real): (r: real)
    ensures kmAnnual == 0.0 ==> r == 0.0
    ensures kmAnnual != 0.0 ==> OnCentGrid(r) && Abs(r - total / kmAnnual) <= 0.005
  {
    if kmAnnual != 0.0 then Round2Bounds(total / kmAnnual); Round2(total / kmAnnual) else 0.0
  }

  /** Per km times the km gives the total back, to within half a hundredth per km. */
  lemma PerKmRecoversTotal(total: real, kmAnnual: real)
    requires kmAnnual > 0.0
    ensures Abs(PerKm(total, kmAnnual) * kmAnnual - total) <= 0.005 * kmAnnual
  {
    var r := PerKm(total, kmAnnual);
    var q := total / kmAnnual;
    assert q * kmAnnual == total;
    assert r * kmAnnual - total == (r - q) * kmAnnual;
    assert -0.005 <= r - q <= 0.005;
    var d := if r - q >= 0.0 then r - q else q - r;
    assert 0.0 <= d <= 0.005;
    assert (0.005 - d) * kmAnnual >= 0.0;
    assert d * kmAnnual <= 0.005 * kmAnnual;
    assert Abs(r * kmAnnual - total) == d * kmAnnual;
  }

  /** The net amortisation of main: purchase price less the bonus, spread over
      the period, so that one period's charges recover the net price. */
  function NetAmortization(purchasePrice: real, bonus: real, period: int): (r: real)
    requires period > 0
    ensures r * period as real == purchasePrice - bonus
    ensures purchasePrice - bonus >= 0.0 ==> 0.0 <= r <= purchasePrice - bonus
  {
    (purchasePrice - bonus) / period as real
  }
}
