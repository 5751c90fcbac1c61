/** The multi-year cost projection (calcola_costo_proiezione). */
module Projection {
  import opened Rounding
  import opened CostModel
  import opened Cumulative

  /** The tag that marks the electric scenario (tipo_bus). */
  const ELECTRIC: string := "elettrico"

  /** The arguments of one projection, plus the one-time electrification cost
      (COSTI_UNA_TANTUM), which the source reads from its configuration. */
  datatype ProjectionParams = ProjectionParams(
    kmAnnual: real,       // km_annui
    consumption: real,    // consumo_medio
    maintenance: real,    // costo_manutenzione
    busPrice: real,       // costo_iniziale_bus (main passes the price net of the bonus)
    fuelPrice: real,      // costo_carburante in year 0
    inflation: real,      // tasso_inflazione
    period: int,          // periodo_ammortamento
    busType: string,      // tipo_bus
    numBus: int,          // num_bus
    amortized: bool,      // ammortamento
    oneTimeCost: real)    // COSTI_UNA_TANTUM

  function Pow(b: real, k: nat): real {
    if k == 0 then 1.0 else Pow(b, k - 1) * b
  }

  /** The fuel price in year k: the base price compounded k times. */
  function FuelPriceAt(p: ProjectionParams, year: nat): real {
    p.fuelPrice * Pow(1.0 + p.inflation, year)
  }

  /** The annual cost of year `year` at that year's fuel price: amortised, or
      in the cash view with the fleet bought again in each replacement year. */
  function RunningCost(p: ProjectionParams, year: nat): real
    requires p.period > 0
  {
    var fuelPrice := FuelPriceAt(p, year);
    var annualAmortization := p.busPrice / p.period as real;
    if p.amortized
    then AnnualCostAmortized(p.kmAnnual, fuelPrice, p.consumption, p.maintenance, p.numBus, annualAmortization)
    else AnnualCost(p.kmAnnual, fuelPrice, p.consumption, p.maintenance, p.numBus, annualAmortization,
                    year, p.period, p.busPrice)
  }

  /** What year 0 adds: the initial purchase of the fleet and, for the
      electric scenario, the one-time cost; nothing in any later year. */
  function InitialCharge(p: ProjectionParams, year: nat): real {
    if year == 0 then p.busPrice * p.numBus as real + (if p.busType == ELECTRIC then p.oneTimeCost else 0.0)
    else 0.0
  }

  /** The projected cost of year `year`. */
  function YearCost(p: ProjectionParams, year: nat): real
    requires p.period > 0
  {
    RunningCost(p, year) + InitialCharge(p, year)
  }

  /** The projected costs of years 0 .. n - 1. */
  function Series(p: ProjectionParams, n: nat): (s: seq<real>)
    requires p.period > 0
    ensures |s| == n
    ensures forall k :: 0 <= k < n ==> s[k] == YearCost(p, k)
  {
    if n == 0 then [] else Series(p, n - 1) + [YearCost(p, n - 1)]
  }

  /** Compounding once per year: year 0 has the base price, each later year
      the previous year's price times (1 + inflation). */
  lemma FuelPriceCompounds(p: ProjectionParams, year: nat)
    ensures FuelPriceAt(p, 0) == p.fuelPrice
    ensures FuelPriceAt(p, year + 1) == FuelPriceAt(p, year) * (1.0 + p.inflation)
  {
    assert Pow(1.0 + p.inflation, year + 1) == Pow(1.0 + p.inflation, year) * (1.0 + p.inflation);
  }

  /** calcola_costo_proiezione: one cost per year of range(years), with the fuel
      price compounded after each year and the one-time cost behind a flag. */
  method ProjectCosts(p: ProjectionParams, years: int) returns (costs: seq<real>)
    requires p.period > 0
    ensures costs == Series(p, if years > 0 then years else 0)
  {
    costs := [];
    var annualAmortization := p.busPrice / p.period as real;
    var oneTimeApplied := false;
    var fuelPrice := p.fuelPrice;
    var year := 0;
    while year < years
      invariant 0 <= year <= (if years > 0 then years else 0)
      invariant fuelPrice == FuelPriceAt(p, year)
      invariant oneTimeApplied == (year > 0 && p.busType == ELECTRIC)
      invariant costs == Series(p, year)
    {
      var cost;
      if p.amortized {
        cost := AnnualCostAmortized(p.kmAnnual, fuelPrice, p.consumption, p.maintenance, p.numBus,
                                    annualAmortization);
      } else {
        cost := AnnualCost(p.kmAnnual, fuelPrice, p.consumption, p.maintenance, p.numBus, annualAmortization,
                           year, p.period, p.busPrice);
      }
      if year == 0 {
        cost := cost + p.busPrice * p.numBus as real;
        if p.busType == ELECTRIC && !oneTimeApplied {
          cost := cost + p.oneTimeCost;
          oneTimeApplied := true;
        }
      }
      assert cost == YearCost(p, year);
      costs := costs + [cost];
      FuelPriceCompounds(p, year);
      fuelPrice := fuelPrice * (1.0 + p.inflation);
      year := year + 1;
    }
  }

  /** Within one year, the electric scenario costs the same as any other
      but for the one-time cost, charged in year 0 only. */
  lemma YearCostOfTag(p: ProjectionParams, other: string, year: nat)
    requires p.period > 0 && other != ELECTRIC
    ensures YearCost(p.(busType := ELECTRIC), year)
            == YearCost(p.(busType := other), year) + (if year == 0 then p.oneTimeCost else 0.0)
  {
    var e, d := p.(busType := ELECTRIC), p.(busType := other);
    assert FuelPriceAt(e, year) == FuelPriceAt(d, year);
    assert e.(busType := other) == d;
    assert d.busType != ELECTRIC;
  }

  /** The one-time cost is charged once over the whole projection: the
      electric series differs from the same series under any other tag in
      year 0 alone, by exactly that cost. */
  lemma OneTimeCostChargedOnce(p: ProjectionParams, other: string, n: nat)
    requires p.period > 0 && other != ELECTRIC
    ensures forall k :: 0 < k < n ==>
              Series(p.(busType := ELECTRIC), n)[k] == Series(p.(busType := other), n)[k]
    ensures n > 0 ==> Series(p.(busType := ELECTRIC), n)[0] == Series(p.(busType := other), n)[0] + p.oneTimeCost
    ensures Sum(Series(p.(busType := ELECTRIC), n))
            == Sum(Series(p.(busType := other), n)) + (if n > 0 then p.oneTimeCost else 0.0)
  {
    var se, sd := Series(p.(busType := ELECTRIC), n), Series(p.(busType := other), n);
    forall k | 0 <= k < n
      ensures se[k] == sd[k] + (if k == 0 then p.oneTimeCost else 0.0)
    {
      YearCostOfTag(p, other, k);
    }
    if n > 0 {
      SumDiffersAtFirst(se, sd);
    }
  }

  lemma {:induction false} PowOfOne(k: nat)
    ensures Pow(1.0, k) == 1.0
  {
    if k > 0 {
      PowOfOne(k - 1);
    }
  }

  /** With a constant fuel price the amortised series is flat after year 0,
      and year 0 exceeds every later year by exactly the initial purchase of
      the fleet plus, for the electric scenario, the one-time cost. */
  lemma AmortizedSeriesFlat(p: ProjectionParams, year: nat)
    requires p.period > 0 && p.amortized && p.inflation == 0.0 && year > 0
    ensures YearCost(p, year) == YearCost(p, 1)
    ensures YearCost(p, 0) - YearCost(p, year)
            == p.busPrice * p.numBus as real + (if p.busType == ELECTRIC then p.oneTimeCost else 0.0)
  {
    PowOfOne(year);
    PowOfOne(1);
    assert FuelPriceAt(p, year) == p.fuelPrice == FuelPriceAt(p, 1);
  }

  /** The cash view against the amortised view of the same projection: equal
      in every year that is no replacement year, and higher by the purchase of
      the fleet, to within a cent, in every replacement year. */
  lemma CashViewSpikes(p: ProjectionParams, year: nat)
    requires p.period > 0 && !p.amortized
    ensures !IsReplacementYear(year, p.period) ==> YearCost(p, year) == YearCost(p.(amortized := true), year)
    ensures IsReplacementYear(year, p.period) ==>
              Abs(YearCost(p, year) - YearCost(p.(amortized := true), year) - p.busPrice * p.numBus as real) <= 0.01
  {
    var a := p.(amortized := true);
    var fuelPrice := FuelPriceAt(p, year);
    assert FuelPriceAt(a, year) == fuelPrice;
    assert InitialCharge(a, year) == InitialCharge(p, year);
    AnnualCostVersusAmortized(p.kmAnnual, fuelPrice, p.consumption, p.maintenance, p.numBus,
                              p.busPrice / p.period as real, year, p.period, p.busPrice);
  }

  /** The number of replacement years among years 0 .. n - 1. */
  function ReplacementYears(n: nat, period: int): nat
    requires period > 0
  {
    if n == 0 then 0
    else ReplacementYears(n - 1, period) + (if IsReplacementYear(n - 1, period) then 1 else 0)
  }

  lemma {:induction false} MulAtLeast(a: int, period: int)
    requires a >= 1 && period > 0
    ensures a * period >= period
  {
    if a > 1 {
      MulAtLeast(a - 1, period);
      assert a * period == (a - 1) * period + period;
    }
  }

  /** Quotient and remainder are the only ones with a remainder in range. */
  lemma DivModUnique(n: int, q: int, r: int, period: int)
    requires period > 0 && 0 <= r < period && n == q * period + r
    ensures n / period == q && n % period == r
  {
    var q', r' := n / period, n % period;
    assert n == q' * period + r';
    assert (q - q') * period == r' - r by {
      assert q * period - q' * period == (q - q') * period;
    }
    if q' < q {
      MulAtLeast(q - q', period);
      assert false;
    } else if q' > q {
      MulAtLeast(q' - q, period);
      assert false;
    }
  }

  /** A projection of n years holds (n - 1) / period replacement years, one
      per whole period after year 0. */
  lemma {:induction false} ReplacementYearsCount(n: nat, period: int)
    requires period > 0 && n > 0
    ensures ReplacementYears(n, period) == (n - 1) / period
  {
    if n > 1 {
      ReplacementYearsCount(n - 1, period);
      var m := n - 1;
      var q, r := (m - 1) / period, (m - 1) % period;
      if r + 1 < period {
        DivModUnique(m, q, r + 1, period);
      } else {
        DivModUnique(m, q + 1, 0, period);
      }
    } else {
      assert ReplacementYears(0, period) == 0;
      assert !IsReplacementYear(0, period);
    }
  }
}
