/** Annual km of one bus line and its split between the electric fleet and
    diesel support (calcola_km_annui, gestione_km_linea). */
module LineKm {

  /** The year's day pattern: GIORNI_FERIALI weekdays and GIORNI_WEEKEND weekend days. */
  datatype Calendar = Calendar(weekdays: nat, weekendDays: nat)

  /** giorni_totali: every operating day of the year. */
  function TotalDays(cal: Calendar): nat {
    cal.weekdays + cal.weekendDays
  }

  /** Annual km of one line from its daily weekday and weekend km. */
  function AnnualKm(cal: Calendar, kmWeekday: real, kmWeekend: real): real {
    kmWeekday * cal.weekdays as real + kmWeekend * cal.weekendDays as real
  }

  /** The most annual km one electric bus covers: its daily range on every day of the year. */
  function AnnualCap(cal: Calendar, rangeLimit: real): real {
    rangeLimit * TotalDays(cal) as real
  }

  /** Annual km of a line, or of the whole fleet: the electric part, the diesel
      support part beyond the electric cap, and the all-diesel total. */
  datatype KmSplit = KmSplit(electric: real, dieselExtra: real, dieselFull: real)

  /** Python's min(a, b): a unless b is strictly smaller. */
  function Min(a: real, b: real): real {
    if b < a then b else a
  }

  /** Python's max(a, b): a unless b is strictly larger. */
  function Max(a: real, b: real): real {
    if b > a then b else a
  }

  /** gestione_km_linea: the annual total is partitioned into an electric part
      capped at the annual cap and a diesel overflow; the total is kept as the
      all-diesel figure. */
  function SplitLineKm(cal: Calendar, kmWeekday: real, kmWeekend: real, rangeLimit: real): (s: KmSplit)
    ensures s.dieselFull == AnnualKm(cal, kmWeekday, kmWeekend)
    ensures s.electric + s.dieselExtra == s.dieselFull
    ensures 0.0 <= s.dieselExtra
    ensures s.electric <= AnnualCap(cal, rangeLimit) && s.electric <= s.dieselFull
    ensures s.dieselExtra == 0.0 <==> s.dieselFull <= AnnualCap(cal, rangeLimit)
    ensures s.electric == s.dieselFull <==> s.dieselFull <= AnnualCap(cal, rangeLimit)
    ensures s.dieselFull > AnnualCap(cal, rangeLimit) ==> s.electric == AnnualCap(cal, rangeLimit)
  {
    var kmAnnual := AnnualKm(cal, kmWeekday, kmWeekend);
    var cap := AnnualCap(cal, rangeLimit);
    KmSplit(Min(kmAnnual, cap), Max(0.0, kmAnnual - cap), kmAnnual)
  }

  /** A line whose weekday and weekend km both lie within the daily range runs
      entirely electric. */
  lemma WithinDailyRangeAllElectric(cal: Calendar, kmWeekday: real, kmWeekend: real, rangeLimit: real)
    requires kmWeekday <= rangeLimit && kmWeekend <= rangeLimit
    ensures SplitLineKm(cal, kmWeekday, kmWeekend, rangeLimit).dieselExtra == 0.0
    ensures SplitLineKm(cal, kmWeekday, kmWeekend, rangeLimit).electric == AnnualKm(cal, kmWeekday, kmWeekend)
  {
    assert kmWeekday * cal.weekdays as real <= rangeLimit * cal.weekdays as real;
    assert kmWeekend * cal.weekendDays as real <= rangeLimit * cal.weekendDays as real;
    assert AnnualCap(cal, rangeLimit) == rangeLimit * cal.weekdays as real + rangeLimit * cal.weekendDays as real;
  }

  /** The cap applies to the annual total, not to each day type: a weekday
      distance beyond the range is absorbed when the weekend is short. */
  lemma AnnualCapNotPerDayType()
    ensures SplitLineKm(Calendar(250, 115), 130.0, 50.0, 120.0) == KmSplit(38250.0, 0.0, 38250.0)
  {
  }

  /** A line of 100 km on weekdays and 50 km on weekend days against a range
      of 60 km: the annual cap is 60 * 365 km and the rest is diesel. */
  lemma AnnualCapExample()
    ensures SplitLineKm(Calendar(250, 115), 100.0, 50.0, 60.0) == KmSplit(21900.0, 8850.0, 30750.0)
    ensures SplitLineKm(Calendar(250, 115), 100.0, 50.0, 120.0) == KmSplit(30750.0, 0.0, 30750.0)
  {
  }
}
