// Order statistics and clipping counts read off a luma histogram.
module Histogram {
  import opened Wrappers
  import opened ImageStatistics

  // How many of the values lie in low..=high.
  ghost function CountIn(s: seq<u8>, low: int, high: int): (n: nat)
    ensures n <= |s|
  {
    if s == [] then 0
    else CountIn(s[..|s| - 1], low, high) + if low <= s[|s| - 1] <= high then 1 else 0
  }

  lemma {:induction false} CountSplits(s: seq<u8>, low: int, middle: int, high: int)
    requires low - 1 <= middle <= high
    ensures CountIn(s, low, high) == CountIn(s, low, middle) + CountIn(s, middle + 1, high)
    decreases |s|
  {
    if s != [] { CountSplits(s[..|s| - 1], low, middle, high); }
  }

  lemma {:induction false} CountOfOne(s: seq<u8>, v: u8)
    ensures CountIn(s, v, v) == multiset(s)[v]
    decreases |s|
  {
    if s != [] {
      var n := |s| - 1;
      CountOfOne(s[..n], v);
      assert s == s[..n] + [s[n]];
      assert multiset(s) == multiset(s[..n]) + multiset{s[n]};
    }
  }

  lemma {:induction false} CountOfAll(s: seq<u8>, low: int, high: int)
    requires (low <= 0 && 255 <= high) || high < low
    ensures CountIn(s, low, high) == if high < low then 0 else |s|
    decreases |s|
  {
    if s != [] { CountOfAll(s[..|s| - 1], low, high); }
  }

  // The count in low..=v grows by the tally of v.
  lemma CountGrows(s: seq<u8>, low: int, v: u8)
    requires low <= v
    ensures CountIn(s, low, v) == CountIn(s, low, v - 1) + multiset(s)[v]
  {
    CountSplits(s, low, v - 1, v);
    CountOfOne(s, v);
  }

  method HistogramCountInclusive(histogram: seq<u32>, first: u8, last: u8, ghost s: seq<u8>) returns (n: u32)
    requires Tallied(histogram, s) && |s| <= ABSOLUTE_MAX_IMAGE_PIXELS && first <= last
    ensures n == CountIn(s, first, last)
  {
    n := 0;
    CountOfAll(s, first, first - 1);
    for v := first as int to last + 1
      invariant n == CountIn(s, first, v - 1)
    {
      CountGrows(s, first, v);
      n := n + histogram[v];
    }
  }

  // ---------------------------------------------------------------- sorting as the reference

  ghost predicate Ascending(s: seq<u8>) {
    forall i, j :: 0 <= i <= j < |s| ==> s[i] <= s[j]
  }

  ghost function Inserted(s: seq<u8>, l: u8): (t: seq<u8>)
    ensures multiset(t) == multiset(s) + multiset{l}
  {
    if s == [] || s[|s| - 1] <= l then s + [l]
    else
      var n := |s| - 1;
      assert s == s[..n] + [s[n]];
      Inserted(s[..n], l) + [s[n]]
  }

  lemma {:induction false} InsertedHolds(s: seq<u8>, l: u8)
    ensures forall x :: x in Inserted(s, l) ==> x == l || x in s
    decreases |s|
  {
    if s != [] && s[|s| - 1] > l { InsertedHolds(s[..|s| - 1], l); }
  }

  lemma {:induction false} InsertedAscends(s: seq<u8>, l: u8)
    requires Ascending(s)
    ensures Ascending(Inserted(s, l))
    decreases |s|
  {
    if s != [] && s[|s| - 1] > l {
      var n := |s| - 1;
      InsertedAscends(s[..n], l);
      InsertedHolds(s[..n], l);
      var t := Inserted(s[..n], l);
      assert Inserted(s, l) == t + [s[n]];
      hide Inserted;
      forall i | 0 <= i < |t| ensures t[i] <= s[n] {
        assert t[i] in t;
      }
    }
  }

  // The values in ascending order.
  ghost function Sorted(s: seq<u8>): (t: seq<u8>)
    ensures multiset(t) == multiset(s) && |t| == |s|
  {
    if s == [] then []
    else
      var n := |s| - 1;
      assert s == s[..n] + [s[n]];
      var t := Inserted(Sorted(s[..n]), s[n]);
      assert |multiset(t)| == |multiset(s)|;
      t
  }

  lemma {:induction false} SortedAscends(s: seq<u8>)
    ensures Ascending(Sorted(s))
    decreases |s|
  {
    if s != [] {
      SortedAscends(s[..|s| - 1]);
      InsertedAscends(Sorted(s[..|s| - 1]), s[|s| - 1]);
    }
  }

  lemma {:induction false} CountIgnoresOrder(s: seq<u8>, t: seq<u8>, high: int)
    requires multiset(s) == multiset(t) && -1 <= high <= 255
    ensures CountIn(s, 0, high) == CountIn(t, 0, high)
    decreases high
  {
    if high < 0 {
      CountOfAll(s, 0, high);
      CountOfAll(t, 0, high);
    } else {
      CountIgnoresOrder(s, t, high - 1);
      CountGrows(s, 0, high);
      CountGrows(t, 0, high);
    }
  }

  lemma {:induction false} RankByCount(t: seq<u8>, rank: nat, v: int)
    requires Ascending(t) && rank < |t|
    ensures t[rank] <= v <==> CountIn(t, 0, v) > rank
    decreases |t|
  {
    var n := |t| - 1;
    if t[n] <= v {
      AllAtMost(t, v);
    } else if rank < n {
      RankByCount(t[..n], rank, v);
    }
  }

  lemma {:induction false} AllAtMost(t: seq<u8>, v: int)
    requires forall i :: 0 <= i < |t| ==> t[i] <= v
    ensures CountIn(t, 0, v) == |t|
    decreases |t|
  {
    if t != [] { AllAtMost(t[..|t| - 1], v); }
  }

  function TargetRank(count: nat, percentile: nat): (r: nat) {
    SaturatingSub(count, 1) * percentile / 100
  }

  lemma RankFits(count: nat, percentile: nat)
    requires count <= ABSOLUTE_MAX_IMAGE_PIXELS && percentile <= 100
    ensures SaturatingSub(count, 1) * percentile <= MAX_U32
    ensures 0 < count ==> TargetRank(count, percentile) < count
  {
    var m := SaturatingSub(count, 1);
    assert m * percentile <= m * 100 <= ABSOLUTE_MAX_IMAGE_PIXELS * 100;
  }

  // The value at rank floor((n - 1) * percentile / 100) of the sorted pixels.
  ghost function Percentile(s: seq<u8>, percentile: nat): (v: u8)
    requires 0 < |s| <= ABSOLUTE_MAX_IMAGE_PIXELS && percentile <= 100
  {
    RankFits(|s|, percentile);
    Sorted(s)[TargetRank(|s|, percentile)]
  }

  // The first level whose cumulative count passes the rank is the sorted value of that rank.
  lemma FirstLevelPastRank(s: seq<u8>, rank: nat, v: u8)
    requires rank < |s| && CountIn(s, 0, v - 1) <= rank < CountIn(s, 0, v)
    ensures Sorted(s)[rank] == v
  {
    SortedAscends(s);
    hide CountIn;
    hide Sorted;
    hide Ascending;
    CountIgnoresOrder(s, Sorted(s), v);
    CountIgnoresOrder(s, Sorted(s), v - 1);
    RankByCount(Sorted(s), rank, v);
    RankByCount(Sorted(s), rank, v - 1);
  }

  // The percentile of a histogram is an order statistic of the pixels it tallies.
  method HistogramPercentile(histogram: seq<u32>, count: u32, percentile: u8, ghost s: seq<u8>) returns (value: u8)
    requires Tallied(histogram, s) && count == |s| <= ABSOLUTE_MAX_IMAGE_PIXELS && percentile <= 100
    ensures value == if s == [] then 255 else Percentile(s, percentile)
    // Less than or just that share of the other pixels is darker, and more is not brighter.
    ensures s != [] ==>
              100 * CountIn(s, 0, value - 1) <= (|s| - 1) * percentile < 100 * CountIn(s, 0, value)
  {
    RankFits(|s|, percentile);
    var product: u32 := SaturatingSub(count, 1) * percentile;
    var targetRank: u32 := product / 100;
    var cumulative: u32 := 0;
    CountOfAll(s, 0, -1);
    for v := 0 to LUMA_LEVELS
      invariant cumulative == CountIn(s, 0, v - 1) <= targetRank
    {
      CountGrows(s, 0, v);
      cumulative := cumulative + histogram[v];
      if cumulative > targetRank {
        FirstLevelPastRank(s, targetRank, v);
        return v;
      }
    }
    CountOfAll(s, 0, 255);
    value := 255;
  }

  lemma RanksAreOrdered(count: nat, low: nat, high: nat)
    requires low <= high
    ensures TargetRank(count, low) <= TargetRank(count, high)
  {
    assert SaturatingSub(count, 1) * low <= SaturatingSub(count, 1) * high;
  }

  // Higher percentiles are not darker, so the dynamic range never saturates.
  lemma PercentilesAreOrdered(s: seq<u8>, low: nat, high: nat)
    requires 0 < |s| <= ABSOLUTE_MAX_IMAGE_PIXELS && low <= high <= 100
    ensures Percentile(s, low) <= Percentile(s, high)
  {
    hide Sorted;
    RankFits(|s|, low);
    RankFits(|s|, high);
    RanksAreOrdered(|s|, low, high);
    hide TargetRank;
    SortedAscends(s);
  }
}
