/** The fleet totals of main: every line's split summed into km_totali. */
module Fleet {
  import opened LineKm

  /** One line's daily km: (weekday km, weekend km). */
  type Line = (real, real)

  /** zip(km_feriali_linee, km_weekend_linee): pairs up to the shorter list. */
  function Zip(kmWeekday: seq<real>, kmWeekend: seq<real>): (lines: seq<Line>)
    ensures |lines| == if |kmWeekday| < |kmWeekend| then |kmWeekday| else |kmWeekend|
    ensures forall i :: 0 <= i < |lines| ==> lines[i] == (kmWeekday[i], kmWeekend[i])
  {
    if kmWeekday == [] || kmWeekend == [] then []
    else [(kmWeekday[0], kmWeekend[0])] + Zip(kmWeekday[1..], kmWeekend[1..])
  }

  function Plus(a: KmSplit, b: KmSplit): KmSplit {
    KmSplit(a.electric + b.electric, a.dieselExtra + b.dieselExtra, a.dieselFull + b.dieselFull)
  }

  function LineSplit(cal: Calendar, line: Line, rangeLimit: real): KmSplit {
    SplitLineKm(cal, line.0, line.1, rangeLimit)
  }

  /** The fleet totals: each component is the sum over the lines of that
      component of the line's split. Fleet-wide, km is partitioned too. */
  function FleetSum(cal: Calendar, lines: seq<Line>, rangeLimit: real): (t: KmSplit)
    ensures t.electric + t.dieselExtra == t.dieselFull
    ensures 0.0 <= t.dieselExtra
    ensures t.electric <= |lines| as real * AnnualCap(cal, rangeLimit)
  {
    if lines == [] then KmSplit(0.0, 0.0, 0.0)
    else Plus(FleetSum(cal, lines[..|lines| - 1], rangeLimit), LineSplit(cal, lines[|lines| - 1], rangeLimit))
  }

  /** The loop of main over the lines, updating the three totals in place. */
  method AccumulateFleetKm(cal: Calendar, kmWeekday: seq<real>, kmWeekend: seq<real>, rangeLimit: real)
    returns (totals: KmSplit)
    ensures totals == FleetSum(cal, Zip(kmWeekday, kmWeekend), rangeLimit)
  {
    var lines := Zip(kmWeekday, kmWeekend);
    totals := KmSplit(0.0, 0.0, 0.0);
    var i := 0;
    while i < |lines|
      invariant 0 <= i <= |lines|
      invariant totals == FleetSum(cal, lines[..i], rangeLimit)
    {
      var (weekdayKm, weekendKm) := lines[i];
      var s := SplitLineKm(cal, weekdayKm, weekendKm, rangeLimit);
      totals := totals.(electric := totals.electric + s.electric);
      totals := totals.(dieselExtra := totals.dieselExtra + s.dieselExtra);
      totals := totals.(dieselFull := totals.dieselFull + s.dieselFull);
      assert lines[..i + 1][..i] == lines[..i];
      i := i + 1;
    }
    assert lines[..i] == lines;
  }

  /** The totals of two groups of lines add up. */
  lemma {:induction false} FleetSumAppend(cal: Calendar, a: seq<Line>, b: seq<Line>, rangeLimit: real)
    ensures FleetSum(cal, a + b, rangeLimit) == Plus(FleetSum(cal, a, rangeLimit), FleetSum(cal, b, rangeLimit))
    decreases |b|
  {
    if b == [] {
      assert a + b == a;
    } else {
      var b' := b[..|b| - 1];
      assert (a + b)[..|a + b| - 1] == a + b';
      FleetSumAppend(cal, a, b', rangeLimit);
    }
  }

  /** Taking one line out of the fleet takes exactly its split out of the totals. */
  lemma FleetSumRemove(cal: Calendar, s: seq<Line>, j: nat, rangeLimit: real)
    requires j < |s|
    ensures FleetSum(cal, s, rangeLimit)
            == Plus(FleetSum(cal, s[..j] + s[j + 1..], rangeLimit), LineSplit(cal, s[j], rangeLimit))
  {
    assert s == s[..j] + ([s[j]] + s[j + 1..]);
    FleetSumAppend(cal, s[..j], [s[j]] + s[j + 1..], rangeLimit);
    FleetSumAppend(cal, [s[j]], s[j + 1..], rangeLimit);
    FleetSumAppend(cal, s[..j], s[j + 1..], rangeLimit);
    assert [s[j]][..0] == [];
  }

  /** Taking the entry at j out of a sequence takes one copy of it out of its multiset. */
  lemma MultisetRemove(s: seq<Line>, j: nat)
    requires j < |s|
    ensures multiset(s[..j] + s[j + 1..]) == multiset(s) - multiset{s[j]}
  {
    assert s == s[..j] + [s[j]] + s[j + 1..];
    assert multiset(s) == multiset(s[..j] + s[j + 1..]) + multiset{s[j]};
  }

  /** The order of the lines does not matter: any rearrangement of the same
      lines gives the same fleet totals. */
  lemma {:induction false} FleetSumPermutation(cal: Calendar, a: seq<Line>, b: seq<Line>, rangeLimit: real)
    requires multiset(a) == multiset(b)
    ensures FleetSum(cal, a, rangeLimit) == FleetSum(cal, b, rangeLimit)
    decreases |a|
  {
    if a == [] {
      assert |b| == |multiset(b)| == 0;
    } else {
      var last := |a| - 1;
      var x := a[last];
      assert x in multiset(b);
      var j :| 0 <= j < |b| && b[j] == x;
      MultisetRemove(a, last);
      MultisetRemove(b, j);
      assert a[..last] + a[last + 1..] == a[..last];
      FleetSumPermutation(cal, a[..last], b[..j] + b[j + 1..], rangeLimit);
      FleetSumRemove(cal, b, j, rangeLimit);
    }
  }
}
