/**
 The latency histogram: one bucket per power of two, percentiles read off the cumulative counts, and merging.
 */
module Histogram {
  import opened Bits

  const BUCKETS: nat := 64

  /** The fields of a histogram at one instant. */
  datatype Hist = Hist(buckets: seq<int>, count: int, sum: int, max: int)

  function Empty(): Hist {
    Hist(seq(BUCKETS, i => 0), 0, 0, 0)
  }

  predicate IsInt64(n: int) {
    -TWO_63 <= n < TWO_63
  }

  /** Samples below one nanosecond are counted as one. */
  function Adjusted(ns: int): (n: nat)
    ensures n >= 1
  {
    if ns <= 0 then 1 else ns
  }

  /** The bucket [2^i, 2^(i+1)) of a sample. */
  function BucketOf(ns: int): nat {
    LenBounds(Adjusted(ns));
    Len(Adjusted(ns)) - 1
  }

  function Max(a: int, b: int): int {
    if a <= b then b else a
  }

  function Recorded(h: Hist, ns: int): Hist
    requires BucketOf(ns) < |h.buckets|
  {
    var b := BucketOf(ns);
    Hist(h.buckets[b := h.buckets[b] + 1], h.count + 1, h.sum + Adjusted(ns), Max(h.max, Adjusted(ns)))
  }

  function Merged(h: Hist, g: Hist): Hist
    requires |h.buckets| == |g.buckets| == BUCKETS
  {
    Hist(seq(BUCKETS, i requires 0 <= i < BUCKETS => h.buckets[i] + g.buckets[i]),
         h.count + g.count, h.sum + g.sum, Max(h.max, g.max))
  }

  /** For 64-bit samples the bit count is between 1 and 63, so the clamp to the last bucket never takes effect. */
  lemma {:induction false} ClampUnreachable(ns: int)
    requires IsInt64(ns)
    ensures 1 <= Len(Adjusted(ns)) <= 63 && BucketOf(ns) < BUCKETS
    ensures Pow2(BucketOf(ns)) <= Max(ns, 1) < Pow2(BucketOf(ns) + 1)
  {
    LenBounds(Adjusted(ns));
    Pow2Of62();
    LenAtMost(Adjusted(ns), 63);
  }

  ghost predicate Samples(ss: seq<int>) {
    forall i :: 0 <= i < |ss| ==> IsInt64(ss[i])
  }

  /** The histogram after recording the samples one after the other. */
  ghost function Of(ss: seq<int>): (h: Hist)
    requires Samples(ss)
    ensures |h.buckets| == BUCKETS
  {
    if ss == [] then Empty()
    else
      ClampUnreachable(ss[|ss| - 1]);
      Recorded(Of(ss[..|ss| - 1]), ss[|ss| - 1])
  }

  // ----- Counting samples -----

  /** How many samples fall into bucket `b`. */
  function CountIn(ss: seq<int>, b: nat): nat {
    if ss == [] then 0 else CountIn(ss[..|ss| - 1], b) + if BucketOf(ss[|ss| - 1]) == b then 1 else 0
  }

  /** How many samples fall into the buckets before `b`. */
  function CountBefore(ss: seq<int>, b: nat): nat {
    if ss == [] then 0 else CountBefore(ss[..|ss| - 1], b) + if BucketOf(ss[|ss| - 1]) < b then 1 else 0
  }

  /** Total and maximum of the samples, those below 1 counting as 1. */
  function SumOf(ss: seq<int>): int {
    if ss == [] then 0 else SumOf(ss[..|ss| - 1]) + Max(ss[|ss| - 1], 1)
  }

  function MaxOf(ss: seq<int>): int {
    if ss == [] then 0 else Max(MaxOf(ss[..|ss| - 1]), Max(ss[|ss| - 1], 1))
  }

  lemma {:induction false} OfCounts(ss: seq<int>)
    requires Samples(ss)
    ensures Of(ss).count == |ss| && Of(ss).sum == SumOf(ss) && Of(ss).max == MaxOf(ss)
    ensures forall b :: 0 <= b < BUCKETS ==> Of(ss).buckets[b] == CountIn(ss, b)
  {
    if ss != [] {
      OfCounts(ss[..|ss| - 1]);
      ClampUnreachable(ss[|ss| - 1]);
    }
  }

  lemma {:induction false} CountBeforeNext(ss: seq<int>, b: nat)
    ensures CountBefore(ss, b + 1) == CountBefore(ss, b) + CountIn(ss, b)
  {
    if ss != [] {
      CountBeforeNext(ss[..|ss| - 1], b);
    }
  }

  lemma {:induction false} CountBeforeAll(ss: seq<int>)
    requires Samples(ss)
    ensures CountBefore(ss, BUCKETS) == |ss| && CountBefore(ss, 0) == 0
  {
    if ss != [] {
      CountBeforeAll(ss[..|ss| - 1]);
      ClampUnreachable(ss[|ss| - 1]);
    }
  }

  lemma {:induction false} AppendCounts(a: seq<int>, c: seq<int>, b: nat)
    ensures CountIn(a + c, b) == CountIn(a, b) + CountIn(c, b)
    ensures CountBefore(a + c, b) == CountBefore(a, b) + CountBefore(c, b)
    ensures SumOf(a + c) == SumOf(a) + SumOf(c) && MaxOf(a + c) == Max(MaxOf(a), MaxOf(c))
    decreases |c|
  {
    MaxNonNegative(a);
    if c == [] {
      assert a + c == a;
    } else {
      assert (a + c)[..|a + c| - 1] == a + c[..|c| - 1];
      AppendCounts(a, c[..|c| - 1], b);
    }
  }

  lemma {:induction false} MaxNonNegative(a: seq<int>)
    ensures MaxOf(a) >= 0
  {
    if a != [] {
      MaxNonNegative(a[..|a| - 1]);
    }
  }

  /** Merging two histograms gives the histogram of all their samples. */
  lemma {:induction false} MergedIsConcatenation(a: seq<int>, c: seq<int>)
    requires Samples(a) && Samples(c)
    ensures Samples(a + c) && Merged(Of(a), Of(c)) == Of(a + c)
  {
    OfCounts(a);
    OfCounts(c);
    OfCounts(a + c);
    AppendCounts(a, c, 0);
    forall b | 0 <= b < BUCKETS
      ensures Merged(Of(a), Of(c)).buckets[b] == Of(a + c).buckets[b]
    {
      AppendCounts(a, c, b);
    }
    assert Merged(Of(a), Of(c)).buckets == Of(a + c).buckets;
  }

  /** Taking one occurrence out of a list. */
  lemma {:induction false} TakeOut(ss: seq<int>, x: int) returns (a: seq<int>, c: seq<int>)
    requires x in ss
    ensures ss == a + [x] + c && multiset(a + c) == multiset(ss) - multiset{x}
  {
    var j :| 0 <= j < |ss| && ss[j] == x;
    a, c := ss[..j], ss[j + 1..];
    assert ss == a + [x] + c;
  }

  /** Counts do not depend on the order of the samples. */
  lemma {:induction false} CountsPermute(ss: seq<int>, ts: seq<int>, b: nat)
    requires multiset(ss) == multiset(ts)
    ensures CountIn(ss, b) == CountIn(ts, b) && CountBefore(ss, b) == CountBefore(ts, b)
    ensures SumOf(ss) == SumOf(ts) && MaxOf(ss) == MaxOf(ts)
    decreases |ss|
  {
    if ss == [] {
      assert |multiset(ts)| == 0;
    } else {
      var x := ss[|ss| - 1];
      var rest := ss[..|ss| - 1];
      assert ss == rest + [x];
      assert x in multiset(ts);
      var a, c := TakeOut(ts, x);
      CountsPermute(rest, a + c, b);
      AppendCounts(a, c, b);
      AppendCounts(a + [x], c, b);
      AppendCounts(a, [x], b);
      MaxSwap(a, x, c);
    }
  }

  lemma {:induction false} MaxSwap(a: seq<int>, x: int, c: seq<int>)
    ensures Max(MaxOf(a + c), Adjusted(x)) == MaxOf(a + [x] + c)
  {
    AppendCounts(a, c, 0);
    AppendCounts(a + [x], c, 0);
    AppendCounts(a, [x], 0);
    assert [x][..0] == [];
  }

  /** So the order in which samples are recorded does not matter. */
  lemma {:induction false} OrderIrrelevant(ss: seq<int>, ts: seq<int>)
    requires Samples(ss) && Samples(ts) && multiset(ss) == multiset(ts)
    ensures Of(ss) == Of(ts)
  {
    OfCounts(ss);
    OfCounts(ts);
    CountsPermute(ss, ts, 0);
    assert |ss| == |multiset(ss)| == |ts|;
    forall b | 0 <= b < BUCKETS
      ensures Of(ss).buckets[b] == Of(ts).buckets[b]
    {
      CountsPermute(ss, ts, b);
    }
    assert Of(ss).buckets == Of(ts).buckets;
  }

  // ----- Percentiles -----

  /** The middle of bucket `i`. */
  function Midpoint(i: nat): int {
    Pow2(i) + Pow2(i) / 2
  }

  /** The first bucket from `i` on at which the cumulative count exceeds the rank. */
  function Search(h: Hist, rank: int, i: nat, cumulative: int): int
    requires |h.buckets| == BUCKETS
    decreases BUCKETS - i
  {
    if i >= BUCKETS then h.max
    else if cumulative + h.buckets[i] > rank then Midpoint(i)
    else Search(h, rank, i + 1, cumulative + h.buckets[i])
  }

  function PercentileOf(h: Hist, rank: nat): int
    requires |h.buckets| == BUCKETS
  {
    if h.count == 0 then 0 else Search(h, if rank >= h.count then h.count - 1 else rank, 0, 0)
  }

  ghost predicate SortedSamples(ss: seq<int>) {
    forall i, j :: 0 <= i < j < |ss| ==> Adjusted(ss[i]) <= Adjusted(ss[j])
  }

  /** In a sorted list, the sample at a rank lies before bucket `b` exactly when more than that many do. */
  lemma {:induction false} RankBefore(ss: seq<int>, k: nat, b: nat)
    requires SortedSamples(ss) && k < |ss|
    ensures BucketOf(ss[k]) < b <==> CountBefore(ss, b) > k
  {
    var n := |ss| - 1;
    CountBeforeAtMost(ss[..n], b);
    if k == n {
      if BucketOf(ss[k]) < b {
        AllBefore(ss, b);
      } else {
        assert CountBefore(ss, b) == CountBefore(ss[..n], b);
      }
    } else {
      RankBefore(ss[..n], k, b);
      if BucketOf(ss[n]) < b {
        BucketMonotone(ss[k], ss[n]);
      }
    }
  }

  lemma {:induction false} CountBeforeAtMost(ss: seq<int>, b: nat)
    ensures CountBefore(ss, b) <= |ss|
  {
    if ss != [] {
      CountBeforeAtMost(ss[..|ss| - 1], b);
    }
  }

  lemma {:induction false} AllBefore(ss: seq<int>, b: nat)
    requires SortedSamples(ss) && ss != [] && BucketOf(ss[|ss| - 1]) < b
    ensures CountBefore(ss, b) == |ss|
  {
    var n := |ss| - 1;
    if n > 0 {
      BucketMonotone(ss[n - 1], ss[n]);
      AllBefore(ss[..n], b);
    }
  }

  lemma {:induction false} BucketMonotone(x: int, y: int)
    requires Adjusted(x) <= Adjusted(y)
    ensures BucketOf(x) <= BucketOf(y)
  {
    LenBounds(Adjusted(y));
    LenAtMost(Adjusted(x), Len(Adjusted(y)));
  }

  /** Any sample is within half its own size of the middle of its bucket. */
  lemma {:induction false} MidpointClose(x: int)
    ensures 2 * (Midpoint(BucketOf(x)) - Adjusted(x)) <= Adjusted(x)
    ensures 2 * (Adjusted(x) - Midpoint(BucketOf(x))) <= Adjusted(x)
  {
    LenBounds(Adjusted(x));
  }

  lemma {:induction false} SearchFinds(ss: seq<int>, k: nat, i: nat)
    requires Samples(ss) && SortedSamples(ss) && k < |ss| && i <= BUCKETS && CountBefore(ss, i) <= k
    ensures Search(Of(ss), k, i, CountBefore(ss, i)) == Midpoint(BucketOf(ss[k]))
    decreases BUCKETS - i
  {
    CountBeforeAll(ss);
    OfCounts(ss);
    if i < BUCKETS {
      CountBeforeNext(ss, i);
      RankBefore(ss, k, i);
      RankBefore(ss, k, i + 1);
      if CountBefore(ss, i + 1) <= k {
        SearchFinds(ss, k, i + 1);
      }
    }
  }

  lemma {:induction false} ReportSearches(ss: seq<int>, rank: nat, r: nat)
    requires Samples(ss) && ss != [] && r == if rank >= |ss| then |ss| - 1 else rank
    ensures PercentileOf(Of(ss), rank) == Search(Of(ss), r, 0, CountBefore(ss, 0)) && CountBefore(ss, 0) == 0
  {
    OfCounts(ss);
    CountBeforeAll(ss);
  }

  lemma {:induction false} ReportIs(sorted: seq<int>, rank: nat, r: nat)
    requires Samples(sorted) && SortedSamples(sorted) && sorted != []
    requires r == if rank >= |sorted| then |sorted| - 1 else rank
    ensures PercentileOf(Of(sorted), rank) == Midpoint(BucketOf(sorted[r]))
  {
    ReportSearches(sorted, rank, r);
    SearchFinds(sorted, r, 0);
  }

  /**
   Accuracy: for every list of samples, in whatever order they were recorded, and every rank, the reported value is
   within 50% of the sample at that rank of the sorted list, where samples below one nanosecond count as one.
   */
  lemma {:induction false} PercentileWithinHalf(ss: seq<int>, sorted: seq<int>, rank: nat)
    requires Samples(ss) && multiset(sorted) == multiset(ss) && SortedSamples(sorted) && ss != []
    ensures |sorted| == |ss|
    ensures
      var k := if rank >= |ss| then |ss| - 1 else rank;
      var x := Adjusted(sorted[k]);
      var v := PercentileOf(Of(ss), rank);
      2 * (v - x) <= x && 2 * (x - v) <= x
  {
    assert |multiset(ss)| == |ss| && |multiset(sorted)| == |sorted|;
    forall i | 0 <= i < |sorted|
      ensures IsInt64(sorted[i])
    {
      assert sorted[i] in multiset(sorted);
      assert sorted[i] in ss;
    }
    OrderIrrelevant(ss, sorted);
    var k := if rank >= |ss| then |ss| - 1 else rank;
    ReportIs(sorted, rank, k);
    MidpointClose(sorted[k]);
  }

  lemma {:induction false} BucketUnique(x: int, j: nat, k: nat)
    requires Pow2(j) <= x < Pow2(j + 1) && Pow2(k) <= x < Pow2(k + 1)
    ensures j == k
  {
    if j < k {
      Pow2Monotone(j + 1, k);
    } else if k < j {
      Pow2Monotone(k + 1, j);
    }
  }

  lemma {:induction false} SortedIsSorted(ss: seq<int>, sorted: seq<int>)
    requires Samples(ss) && multiset(sorted) == multiset(ss)
    requires forall i, j :: 0 <= i < j < |sorted| ==> sorted[i] <= sorted[j]
    ensures |sorted| == |ss| && Samples(sorted) && SortedSamples(sorted)
  {
    assert |multiset(ss)| == |ss| && |multiset(sorted)| == |sorted|;
    forall i | 0 <= i < |sorted|
      ensures IsInt64(sorted[i])
    {
      assert sorted[i] in multiset(sorted);
      assert sorted[i] in ss;
    }
  }

  lemma {:induction false} BucketIs(x: int, k: nat)
    requires IsInt64(x) && Pow2(k) <= Max(x, 1) < Pow2(k + 1)
    ensures BucketOf(x) == k
  {
    ClampUnreachable(x);
    BucketUnique(Max(x, 1), k, BucketOf(x));
  }

  lemma HalfOfEven(p: int, half: int)
    requires p == 2 * half
    ensures p / 2 == half
  {
  }

  lemma {:induction false} MidpointIs(k: nat, v: int)
    requires v == Midpoint(k)
    ensures if k == 0 then v == 1 else 2 * v == Pow2(k) + Pow2(k + 1)
  {
    if k > 0 {
      HalfOfEven(Pow2(k), Pow2(k - 1));
    }
  }

  /**
   What is reported, exactly: the middle between the powers of two that the sample at the rank lies between, or 1 if
   that is 1. Samples below 1 count as 1, and ranks beyond the last mean the last.
   */
  lemma {:induction false} PercentileIsMiddle(ss: seq<int>, sorted: seq<int>, rank: nat, r: nat, k: nat)
    requires Samples(ss) && multiset(sorted) == multiset(ss) && r < |sorted|
    requires forall i, j :: 0 <= i < j < |sorted| ==> sorted[i] <= sorted[j]
    requires r == if rank >= |ss| then |ss| - 1 else rank
    requires Pow2(k) <= Max(sorted[r], 1) < Pow2(k + 1)
    ensures
      var v := PercentileOf(Of(ss), rank);
      if k == 0 then v == 1 else 2 * v == Pow2(k) + Pow2(k + 1)
  {
    SortedIsSorted(ss, sorted);
    OrderIrrelevant(ss, sorted);
    ReportIs(sorted, rank, r);
    BucketIs(sorted[r], k);
    MidpointIs(k, PercentileOf(Of(ss), rank));
  }

  /** Without samples 0 is reported. */
  lemma PercentileOfNone(rank: nat)
    ensures PercentileOf(Of([]), rank) == 0
  {
  }

  /** Measured against the samples as they were, the reported value is within 50% exactly if the sample is positive. */
  lemma {:induction false} TrueSampleWithinHalfIff(ss: seq<int>, sorted: seq<int>, rank: nat)
    requires Samples(ss) && multiset(sorted) == multiset(ss) && ss != []
    requires forall i, j :: 0 <= i < j < |sorted| ==> sorted[i] <= sorted[j]
    ensures |sorted| == |ss|
    ensures
      var k := if rank >= |ss| then |ss| - 1 else rank;
      var x := sorted[k];
      var v := PercentileOf(Of(ss), rank);
      v > 0 && ((2 * (v - x) <= x && 2 * (x - v) <= x) <==> x >= 1)
  {
    SortedIsSorted(ss, sorted);
    PercentileWithinHalf(ss, sorted, rank);
  }

  class LatencyHistogram {
    const buckets: array<int>
    var count: int
    var sum: int
    var max: int

    constructor ()
      ensures Valid() && Value() == Empty()
    {
      buckets := new int[BUCKETS](i => 0);
      count, sum, max := 0, 0, 0;
    }

    ghost predicate Valid() {
      buckets.Length == BUCKETS
    }

    ghost function Value(): Hist
      reads this, buckets
    {
      Hist(buckets[..], count, sum, max)
    }

    method Record(sample: int)
      requires Valid() && IsInt64(sample)
      modifies this, buckets
      ensures BucketOf(sample) < BUCKETS && Value() == Recorded(old(Value()), sample)
    {
      ClampUnreachable(sample);
      var ns := sample;
      if ns <= 0 {
        ns := 1;
      }
      var b: int := Len(ns);
      if b > 63 {
        b := 63;
      }
      buckets[b - 1] := buckets[b - 1] + 1;
      count := count + 1;
      sum := sum + ns;
      if ns > max {
        max := ns;
      }
    }

    /** The reported value at an integer rank. */
    method Percentile(rank: nat) returns (v: int)
      requires Valid()
      ensures v == PercentileOf(Value(), rank)
    {
      if count == 0 {
        return 0;
      }
      var target: int := rank;
      if target >= count {
        target := count - 1;
      }
      var cumulative := 0;
      var i := 0;
      while i < BUCKETS
        invariant i <= BUCKETS
        invariant PercentileOf(Value(), rank) == Search(Value(), target, i, cumulative)
      {
        cumulative := cumulative + buckets[i];
        if cumulative > target {
          var low := Pow2(i);
          return low + low / 2;
        }
        i := i + 1;
      }
      v := max;
    }

    /** Add all samples of another histogram, possibly this very one, to this one. */
    method Merge(other: LatencyHistogram)
      requires Valid() && other.Valid()
      modifies this, buckets
      ensures Value() == Merged(old(Value()), old(other.Value()))
    {
      var i := 0;
      while i < BUCKETS
        invariant i <= BUCKETS
        invariant count == old(count) && sum == old(sum) && max == old(max)
        invariant forall j :: 0 <= j < i ==> buckets[j] == old(buckets[j]) + old(other.buckets[j])
        invariant forall j :: i <= j < BUCKETS ==>
                    buckets[j] == old(buckets[j]) && other.buckets[j] == old(other.buckets[j])
      {
        buckets[i] := buckets[i] + other.buckets[i];
        i := i + 1;
      }
      count, sum := count + other.count, sum + other.sum;
      if other.max > max {
        max := other.max;
      }
      assert buckets[..] == Merged(old(Value()), old(other.Value())).buckets;
    }
  }
}
