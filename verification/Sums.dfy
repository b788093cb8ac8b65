/** Sums of per-jetty counters (`posted`, `done`, outstanding requests). */
module Sums {

  function Sum(s: seq<nat>): (t: nat)
  {
    if s == [] then 0 else Sum(s[..|s| - 1]) + s[|s| - 1]
  }

  /** Changing one counter changes the total by the same amount. */
  lemma {:induction false} SumUpdate(s: seq<nat>, j: nat, v: nat)
    requires j < |s|
    ensures Sum(s[j := v]) + s[j] == Sum(s) + v
  {
    var last := |s| - 1;
    if j == last {
      assert s[j := v][..last] == s[..last];
    } else {
      assert s[j := v][..last] == s[..last][j := v];
      SumUpdate(s[..last], j, v);
    }
  }

  lemma {:induction false} SumZero(s: seq<nat>)
    requires forall j :: 0 <= j < |s| ==> s[j] == 0
    ensures Sum(s) == 0
  {
    if s != [] {
      SumZero(s[..|s| - 1]);
    }
  }

  /** Pointwise smaller counters have a smaller total, and equal totals force equal counters. */
  lemma {:induction false} SumMonotone(a: seq<nat>, b: seq<nat>)
    requires |a| == |b|
    requires forall j :: 0 <= j < |a| ==> a[j] <= b[j]
    ensures Sum(a) <= Sum(b)
    ensures Sum(a) == Sum(b) ==> a == b
  {
    if a != [] {
      var last := |a| - 1;
      SumMonotone(a[..last], b[..last]);
      if Sum(a) == Sum(b) {
        assert a == a[..last] + [a[last]];
        assert b == b[..last] + [b[last]];
      }
    }
  }

  /** The total of the differences is the difference of the totals. */
  lemma {:induction false} SumDifference(a: seq<nat>, b: seq<nat>, d: seq<nat>)
    requires |a| == |b| == |d|
    requires forall j :: 0 <= j < |a| ==> a[j] == b[j] + d[j]
    ensures Sum(a) == Sum(b) + Sum(d)
  {
    if a != [] {
      var last := |a| - 1;
      SumDifference(a[..last], b[..last], d[..last]);
    }
  }

  lemma {:induction false} SumAtMost(s: seq<nat>, bound: nat)
    requires forall j :: 0 <= j < |s| ==> s[j] <= bound
    ensures Sum(s) <= |s| * bound
  {
    if s != [] {
      var last := |s| - 1;
      SumAtMost(s[..last], bound);
      assert |s| * bound == last * bound + bound;
    }
  }

  /** No single counter exceeds the total. */
  lemma {:induction false} SumAtLeastOne(s: seq<nat>, j: nat)
    requires j < |s|
    ensures s[j] <= Sum(s)
  {
    if j < |s| - 1 {
      SumAtLeastOne(s[..|s| - 1], j);
    }
  }
}
