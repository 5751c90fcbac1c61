/** Sums and running totals of a yearly series (np.cumsum in main). */
module Cumulative {

  function Sum(s: seq<real>): real {
    if s == [] then 0.0 else s[0] + Sum(s[1..])
  }

  /** Appending one year adds its value to the sum. */
  lemma {:induction false} SumAppendOne(s: seq<real>, x: real)
    ensures Sum(s + [x]) == Sum(s) + x
  {
    if s != [] {
      assert (s + [x])[1..] == s[1..] + [x];
      SumAppendOne(s[1..], x);
    }
  }

  /** Two series that agree after their first entry differ in sum by the
      difference of their first entries. */
  lemma SumDiffersAtFirst(a: seq<real>, b: seq<real>)
    requires |a| == |b| > 0
    requires forall k :: 0 < k < |a| ==> a[k] == b[k]
    ensures Sum(a) == Sum(b) + (a[0] - b[0])
  {
    assert a[1..] == b[1..];
  }

  /** Running totals starting from acc, the way np.cumsum walks the series. */
  function RunningTotals(acc: real, s: seq<real>): (r: seq<real>)
    ensures |r| == |s|
    ensures forall k :: 0 <= k < |s| ==> r[k] == acc + Sum(s[..k + 1])
    decreases s
  {
    if s == [] then []
    else
      var rest := RunningTotals(acc + s[0], s[1..]);
      SumOfPrefixes(s);
      [acc + s[0]] + rest
  }

  /** Each prefix sum past the first year is that year plus a prefix sum of the rest. */
  lemma SumOfPrefixes(s: seq<real>)
    requires s != []
    ensures Sum(s[..1]) == s[0]
    ensures forall k :: 1 < k <= |s| ==> Sum(s[..k]) == s[0] + Sum(s[1..][..k - 1])
  {
    assert s[..1][1..] == [];
    forall k | 1 < k <= |s|
      ensures Sum(s[..k]) == s[0] + Sum(s[1..][..k - 1])
    {
      assert s[..k][1..] == s[1..][..k - 1];
    }
  }

  /** np.cumsum: entry k is the total of years 0..k. */
  function CumulativeSums(s: seq<real>): (r: seq<real>)
    ensures |r| == |s|
    ensures forall k :: 0 <= k < |s| ==> r[k] == Sum(s[..k + 1])
  {
    RunningTotals(0.0, s)
  }

  /** Each prefix sum is the one before it plus the next year. */
  lemma PrefixSumStep(s: seq<real>, k: nat)
    requires 0 < k < |s|
    ensures Sum(s[..k + 1]) == Sum(s[..k]) + s[k]
  {
    assert s[..k + 1] == s[..k] + [s[k]];
    SumAppendOne(s[..k], s[k]);
  }

  /** The cumulative series is undone by taking differences: it starts with
      the first year, each step adds that year, and it ends at the total. */
  lemma CumulativeSumsInverse(s: seq<real>)
    ensures s != [] ==> CumulativeSums(s)[0] == s[0]
    ensures forall k :: 0 < k < |s| ==> CumulativeSums(s)[k] - CumulativeSums(s)[k - 1] == s[k]
    ensures s != [] ==> CumulativeSums(s)[|s| - 1] == Sum(s)
  {
    var r := CumulativeSums(s);
    forall k | 0 < k < |s|
      ensures r[k] - r[k - 1] == s[k]
    {
      PrefixSumStep(s, k);
    }
    if s != [] {
      assert r[|s| - 1] == Sum(s[..|s|]);
      assert s[..|s|] == s;
      assert r[0] == Sum(s[..1]);
      assert s[..1] == [s[0]];
      assert [s[0]][1..] == [];
    }
  }

  /** With no negative year, the cumulative cost never decreases. */
  lemma CumulativeSumsMonotone(s: seq<real>)
    requires forall k :: 0 <= k < |s| ==> 0.0 <= s[k]
    ensures forall j, k :: 0 <= j <= k < |s| ==> CumulativeSums(s)[j] <= CumulativeSums(s)[k]
  {
    var r := CumulativeSums(s);
    CumulativeSumsInverse(s);
    forall j, k | 0 <= j <= k < |s|
      ensures r[j] <= r[k]
    {
      var m := j;
      while m < k
        invariant j <= m <= k
        invariant r[j] <= r[m]
      {
        m := m + 1;
      }
    }
  }
}
