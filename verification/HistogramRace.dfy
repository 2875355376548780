/**
 Recording by any number of goroutines at once. A recording is five steps on shared memory: three atomic additions, a
 load of the maximum and a compare-and-swap that starts over when it loses a race. Any interleaving of any number of
 recordings ends with the same histogram as recording one after the other.
 */
module HistogramRace {
  import opened Histogram

  datatype Stage =
    | Entered            // about to add to the bucket
    | Bucketed           // about to add to the count
    | Counted            // about to add to the sum
    | Summed             // about to load the maximum
    | Loaded(seen: int)  // has seen a smaller maximum, about to swap it
    | Done

  /** How many of the four fields a recording has settled. */
  function Rank(s: Stage): nat {
    match s
    case Entered => 0
    case Bucketed => 1
    case Counted => 2
    case Summed => 3
    case Loaded(_) => 3
    case Done => 4
  }

  /** The shared histogram, and every recording ever begun with its sample and how far it has come. */
  datatype Race = Race(h: Hist, samples: seq<int>, stages: seq<Stage>)

  datatype Act = Begin(sample: int) | Advance(i: nat)

  const START: Race := Race(Empty(), [], [])

  function Move(r: Race, i: nat): Race
    requires i < |r.stages| == |r.samples| && BucketOf(r.samples[i]) < |r.h.buckets|
  {
    var ns, b := Adjusted(r.samples[i]), BucketOf(r.samples[i]);
    match r.stages[i]
    case Entered =>
      r.(h := r.h.(buckets := r.h.buckets[b := r.h.buckets[b] + 1]), stages := r.stages[i := Bucketed])
    case Bucketed =>
      r.(h := r.h.(count := r.h.count + 1), stages := r.stages[i := Counted])
    case Counted =>
      r.(h := r.h.(sum := r.h.sum + ns), stages := r.stages[i := Summed])
    case Summed =>
      r.(stages := r.stages[i := if ns <= r.h.max then Done else Loaded(r.h.max)])
    case Loaded(seen) =>
      if r.h.max == seen then r.(h := r.h.(max := ns), stages := r.stages[i := Done])
      else r.(stages := r.stages[i := Summed])
    case Done => r
  }

  ghost predicate Formed(r: Race) {
    Samples(r.samples) && |r.stages| == |r.samples| && |r.h.buckets| == BUCKETS
  }

  /** One step; a step that is not possible does nothing. */
  ghost function Next(r: Race, a: Act): (r': Race)
    requires Formed(r)
    ensures Formed(r')
  {
    match a
    case Begin(sample) =>
      if IsInt64(sample) then r.(samples := r.samples + [sample], stages := r.stages + [Entered]) else r
    case Advance(i) =>
      if i < |r.stages| then
        ClampUnreachable(r.samples[i]);
        Move(r, i)
      else r
  }

  /** The samples of the recordings that have settled at least `q` fields. */
  function Passed(ss: seq<int>, stages: seq<Stage>, q: nat): seq<int>
    requires |ss| == |stages|
  {
    if ss == [] then []
    else
      var n := |ss| - 1;
      Passed(ss[..n], stages[..n], q) + if Rank(stages[n]) >= q then [ss[n]] else []
  }

  /** Every field is right about the recordings that have settled it. */
  ghost predicate Inv(r: Race) {
    && Formed(r)
    && (forall b :: 0 <= b < BUCKETS ==> r.h.buckets[b] == CountIn(Passed(r.samples, r.stages, 1), b))
    && r.h.count == |Passed(r.samples, r.stages, 2)|
    && r.h.sum == SumOf(Passed(r.samples, r.stages, 3))
    && r.h.max == MaxOf(Passed(r.samples, r.stages, 4))
    && (forall i :: 0 <= i < |r.stages| && r.stages[i].Loaded? ==> r.stages[i].seen < Adjusted(r.samples[i]))
  }

  lemma {:induction false} PassedSame(ss: seq<int>, stages: seq<Stage>, i: nat, s: Stage, q: nat)
    requires i < |ss| == |stages| && (Rank(s) >= q <==> Rank(stages[i]) >= q)
    ensures Passed(ss, stages[i := s], q) == Passed(ss, stages, q)
  {
    var n := |ss| - 1;
    if i < n {
      assert stages[i := s][..n] == stages[..n][i := s];
      PassedSame(ss[..n], stages[..n], i, s, q);
    } else {
      assert stages[i := s][..n] == stages[..n];
    }
  }

  /** A recording that settles one more field joins those that have, at its own place. */
  lemma {:induction false} PassedMore(ss: seq<int>, stages: seq<Stage>, i: nat, s: Stage, q: nat)
    returns (a: seq<int>, c: seq<int>)
    requires i < |ss| == |stages| && Rank(stages[i]) < q <= Rank(s)
    ensures Passed(ss, stages, q) == a + c && Passed(ss, stages[i := s], q) == a + [ss[i]] + c
  {
    var n := |ss| - 1;
    if i < n {
      assert stages[i := s][..n] == stages[..n][i := s];
      a, c := PassedMore(ss[..n], stages[..n], i, s, q);
      c := c + if Rank(stages[n]) >= q then [ss[n]] else [];
    } else {
      assert stages[i := s][..n] == stages[..n];
      a, c := Passed(ss[..n], stages[..n], q), [];
    }
  }

  lemma {:induction false} OneMore(a: seq<int>, x: int, c: seq<int>, b: nat)
    ensures CountIn(a + [x] + c, b) == CountIn(a + c, b) + if BucketOf(x) == b then 1 else 0
    ensures SumOf(a + [x] + c) == SumOf(a + c) + Adjusted(x)
    ensures MaxOf(a + [x] + c) == Max(MaxOf(a + c), Adjusted(x))
  {
    AppendCounts(a, c, b);
    AppendCounts(a + [x], c, b);
    AppendCounts(a, [x], b);
    MaxSwap(a, x, c);
    assert [x][..0] == [];
  }

  lemma {:induction false} BeginKeeps(r: Race, sample: int)
    requires Inv(r)
    ensures Inv(Next(r, Begin(sample)))
  {
    var ss, stages := r.samples + [sample], r.stages + [Entered];
    assert ss[..|ss| - 1] == r.samples && stages[..|ss| - 1] == r.stages;
    forall q: nat | q > 0
      ensures Passed(ss, stages, q) == Passed(r.samples, r.stages, q)
    {
    }
  }

  /** The stage after `i` has moved. */
  lemma {:induction false} OthersSame(r: Race, i: nat, s: Stage, p: nat)
    requires Formed(r) && i < |r.stages| && Rank(r.stages[i]) == p && Rank(s) == p + 1
    ensures forall q: nat :: q != p + 1 ==>
              Passed(r.samples, r.stages[i := s], q) == Passed(r.samples, r.stages, q)
  {
    forall q: nat | q != p + 1
      ensures Passed(r.samples, r.stages[i := s], q) == Passed(r.samples, r.stages, q)
    {
      PassedSame(r.samples, r.stages, i, s, q);
    }
  }

  lemma {:induction false} BucketKeeps(r: Race, i: nat)
    requires Inv(r) && i < |r.stages| && r.stages[i].Entered?
    ensures Inv(Next(r, Advance(i)))
  {
    ClampUnreachable(r.samples[i]);
    OthersSame(r, i, Bucketed, 0);
    var a, c := PassedMore(r.samples, r.stages, i, Bucketed, 1);
    var r' := Next(r, Advance(i));
    forall b | 0 <= b < BUCKETS
      ensures r'.h.buckets[b] == CountIn(Passed(r'.samples, r'.stages, 1), b)
    {
      OneMore(a, r.samples[i], c, b);
    }
  }

  lemma {:induction false} CountKeeps(r: Race, i: nat)
    requires Inv(r) && i < |r.stages| && r.stages[i].Bucketed?
    ensures Inv(Next(r, Advance(i)))
  {
    OthersSame(r, i, Counted, 1);
    var a, c := PassedMore(r.samples, r.stages, i, Counted, 2);
  }

  lemma {:induction false} SumKeeps(r: Race, i: nat)
    requires Inv(r) && i < |r.stages| && r.stages[i].Counted?
    ensures Inv(Next(r, Advance(i)))
  {
    OthersSame(r, i, Summed, 2);
    var a, c := PassedMore(r.samples, r.stages, i, Summed, 3);
    OneMore(a, r.samples[i], c, 0);
  }

  /** A recording is through with the maximum when it is no larger, or has become it. */
  lemma {:induction false} MaxKeeps(r: Race, i: nat, r': Race)
    requires Inv(r) && i < |r.stages| && Rank(r.stages[i]) == 3 && r' == Next(r, Advance(i)) && r'.stages[i].Done?
    ensures Inv(r')
  {
    OthersSame(r, i, Done, 3);
    var a, c := PassedMore(r.samples, r.stages, i, Done, 4);
    OneMore(a, r.samples[i], c, 0);
    assert r'.stages == r.stages[i := Done];
  }

  /** Otherwise nothing has changed but what it has seen. */
  lemma {:induction false} RetryKeeps(r: Race, i: nat, r': Race)
    requires Inv(r) && i < |r.stages| && Rank(r.stages[i]) == 3 && r' == Next(r, Advance(i)) && !r'.stages[i].Done?
    ensures Inv(r')
  {
    var s := r'.stages[i];
    assert r' == r.(stages := r.stages[i := s]);
    forall q: nat
      ensures Passed(r.samples, r.stages[i := s], q) == Passed(r.samples, r.stages, q)
    {
      PassedSame(r.samples, r.stages, i, s, q);
    }
  }

  lemma {:induction false} NextKeeps(r: Race, a: Act)
    requires Inv(r)
    ensures Inv(Next(r, a))
  {
    match a
    case Begin(sample) => BeginKeeps(r, sample);
    case Advance(i) =>
      if i < |r.stages| {
        match r.stages[i]
        case Entered => BucketKeeps(r, i);
        case Bucketed => CountKeeps(r, i);
        case Counted => SumKeeps(r, i);
        case Done =>
        case _ =>
          var r' := Next(r, a);
          if r'.stages[i].Done? {
            MaxKeeps(r, i, r');
          } else {
            RetryKeeps(r, i, r');
          }
      }
  }

  ghost function Exec(acts: seq<Act>): (r: Race)
    ensures Inv(r)
    decreases |acts|
  {
    if acts == [] then START
    else
      var before := Exec(acts[..|acts| - 1]);
      NextKeeps(before, acts[|acts| - 1]);
      Next(before, acts[|acts| - 1])
  }

  lemma {:induction false} AllPassed(ss: seq<int>, stages: seq<Stage>, q: nat)
    requires |ss| == |stages| && q <= 4 && forall i :: 0 <= i < |stages| ==> stages[i].Done?
    ensures Passed(ss, stages, q) == ss
  {
    if ss != [] {
      AllPassed(ss[..|ss| - 1], stages[..|ss| - 1], q);
    }
  }

  /** Whatever the interleaving, once every recording is done the histogram is that of its samples, recorded in turn. */
  lemma {:induction false} RaceSettles(acts: seq<Act>)
    requires forall i :: 0 <= i < |Exec(acts).stages| ==> Exec(acts).stages[i].Done?
    ensures Samples(Exec(acts).samples) && Exec(acts).h == Of(Exec(acts).samples)
  {
    var r := Exec(acts);
    forall q: nat | q <= 4
      ensures Passed(r.samples, r.stages, q) == r.samples
    {
      AllPassed(r.samples, r.stages, q);
    }
    OfCounts(r.samples);
    assert r.h.buckets == Of(r.samples).buckets;
  }

  // ----- Reading while others record -----

  lemma {:induction false} PassedShrinks(ss: seq<int>, stages: seq<Stage>, q: nat)
    requires |ss| == |stages| && Samples(ss)
    ensures |Passed(ss, stages, q + 1)| <= |Passed(ss, stages, q)| && Samples(Passed(ss, stages, q))
  {
    if ss != [] {
      PassedShrinks(ss[..|ss| - 1], stages[..|ss| - 1], q);
    }
  }

  function TotalFrom(v: seq<int>, i: nat): int
    requires i <= |v|
    decreases |v| - i
  {
    if i == |v| then 0 else v[i] + TotalFrom(v, i + 1)
  }

  lemma {:induction false} TotalIsCount(v: seq<int>, ss: seq<int>, i: nat)
    requires |v| == BUCKETS && i <= BUCKETS && Samples(ss)
    requires forall b :: 0 <= b < BUCKETS ==> v[b] >= CountIn(ss, b)
    ensures TotalFrom(v, i) >= |ss| - CountBefore(ss, i)
    decreases BUCKETS - i
  {
    CountBeforeAll(ss);
    if i < BUCKETS {
      CountBeforeNext(ss, i);
      TotalIsCount(v, ss, i + 1);
    }
  }

  lemma {:induction false} SearchSucceeds(h: Hist, rank: int, i: nat, cumulative: int) returns (b: nat)
    requires |h.buckets| == BUCKETS && i <= BUCKETS && cumulative <= rank < cumulative + TotalFrom(h.buckets, i)
    ensures b < BUCKETS && Search(h, rank, i, cumulative) == Midpoint(b)
    decreases BUCKETS - i
  {
    if cumulative + h.buckets[i] > rank {
      b := i;
    } else {
      b := SearchSucceeds(h, rank, i + 1, cumulative + h.buckets[i]);
    }
  }

  /** No step ever takes anything out of a bucket. */
  lemma BucketsGrow(r: Race, a: Act, b: nat)
    requires Formed(r) && b < BUCKETS
    ensures Next(r, a).h.buckets[b] >= r.h.buckets[b]
  {
  }

  lemma {:induction false} BucketsGrowOver(acts: seq<Act>, more: seq<Act>, b: nat)
    requires b < BUCKETS
    ensures Exec(acts + more).h.buckets[b] >= Exec(acts).h.buckets[b]
    decreases |more|
  {
    if more == [] {
      assert acts + more == acts;
    } else {
      var n := |more| - 1;
      assert (acts + more)[..|acts + more| - 1] == acts + more[..n];
      BucketsGrowOver(acts, more[..n], b);
      BucketsGrow(Exec(acts + more[..n]), more[n], b);
    }
  }

  /**
   A percentile taken while others record always ends in a bucket. The count is loaded after `acts`, bucket `i` after
   `since[i]` more steps; every recording counted has been in its bucket since before.
   */
  lemma {:induction false} PercentileEndsInBucket(acts: seq<Act>, since: seq<seq<Act>>, seen: Hist, rank: nat)
    returns (b: nat)
    requires |since| == |seen.buckets| == BUCKETS && rank < Exec(acts).h.count
    requires forall i :: 0 <= i < BUCKETS ==> seen.buckets[i] == Exec(acts + since[i]).h.buckets[i]
    ensures b < BUCKETS && Search(seen, rank, 0, 0) == Midpoint(b)
  {
    var r := Exec(acts);
    var ss := Passed(r.samples, r.stages, 1);
    forall i | 0 <= i < BUCKETS
      ensures seen.buckets[i] >= r.h.buckets[i]
    {
      BucketsGrowOver(acts, since[i], i);
    }
    PassedShrinks(r.samples, r.stages, 1);
    CountBeforeAll(ss);
    TotalIsCount(seen.buckets, ss, 0);
    b := SearchSucceeds(seen, rank, 0, 0);
  }
}
