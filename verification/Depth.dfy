/**
 What a look at the best price levels of a side sees, in terms of the orders and their prices alone: how much rests at
 a price, how many orders, and how far down the list a given number of prices goes.
 */
module Depth {
  import opened Types
  import opened FlatBook
  import opened EngineSpec
  import opened PriceLevels

  /** A price at which one would sooner trade with the side. */
  predicate Better(side: Side, p: int, q: int) {
    if side.Buy? then p > q else p < q
  }

  /** Best price first. */
  ghost predicate BestFirst(side: Side, b: seq<OrderRec>) {
    forall i, j :: 0 <= i < j < |b| ==> !Better(side, b[j].price, b[i].price)
  }

  lemma SortedIsBestFirst(side: Side, b: seq<OrderRec>)
    ensures Sorted(side, b) <==> BestFirst(side, b)
  {
    forall i, j | 0 <= i < j < |b|
      ensures Key(side, b[i].price) <= Key(side, b[j].price) <==> !Better(side, b[j].price, b[i].price)
    {
    }
  }

  /** Everything resting at a price. */
  function QtyAt(price: int, b: seq<OrderRec>): int {
    if b == [] then 0 else (if b[0].price == price then b[0].remaining else 0) + QtyAt(price, b[1..])
  }

  function CountAt(price: int, b: seq<OrderRec>): nat {
    if b == [] then 0 else (if b[0].price == price then 1 else 0) + CountAt(price, b[1..])
  }

  function PricesOf(b: seq<OrderRec>): (ps: set<int>)
    ensures forall i :: 0 <= i < |b| ==> b[i].price in ps
  {
    if b == [] then {} else {b[0].price} + PricesOf(b[1..])
  }

  /** The best price is some order's, and no order's is better; without orders it is 0. */
  lemma BestIsBest(side: Side, b: seq<OrderRec>)
    requires BestFirst(side, b)
    ensures b == [] ==> BestPrice(b) == 0
    ensures b != [] ==> BestPrice(b) in PricesOf(b)
    ensures forall i :: 0 <= i < |b| ==> !Better(side, b[i].price, BestPrice(b))
  {
  }

  // ----- The front level -----

  /** The front level is a stretch of orders at the best price, and everything behind it is priced worse. */
  lemma {:induction false} FrontSplits(side: Side, b: seq<OrderRec>, n: nat)
    requires BestFirst(side, b) && b != [] && n == FrontLen(b[0].price, b)
    ensures 0 < n && (forall i :: 0 <= i < n ==> b[i].price == b[0].price)
    ensures forall i :: n <= i < |b| ==> Better(side, b[0].price, b[i].price)
    ensures BestFirst(side, b[n..])
  {
    FrontOnePrice(b[0].price, b);
    if n < |b| {
      assert b[n].price != b[0].price;
      forall i | n <= i < |b|
        ensures Better(side, b[0].price, b[i].price)
      {
        assert n == i || !Better(side, b[i].price, b[n].price);
      }
    }
  }

  lemma {:induction false} FrontOnePrice(price: int, b: seq<OrderRec>)
    ensures forall i :: 0 <= i < FrontLen(price, b) ==> b[i].price == price
    ensures FrontLen(price, b) < |b| ==> b[FrontLen(price, b)].price != price
  {
    if FrontLen(price, b) > 0 {
      FrontOnePrice(price, b[1..]);
      forall i | 0 < i < FrontLen(price, b)
        ensures b[i] == b[1..][i - 1]
      {
      }
    }
  }

  lemma {:induction false} AtAppend(price: int, a: seq<OrderRec>, b: seq<OrderRec>)
    ensures QtyAt(price, a + b) == QtyAt(price, a) + QtyAt(price, b)
    ensures CountAt(price, a + b) == CountAt(price, a) + CountAt(price, b)
  {
    if a == [] {
      assert a + b == b;
    } else {
      assert (a + b)[1..] == a[1..] + b;
      AtAppend(price, a[1..], b);
    }
  }

  lemma {:induction false} AllAt(price: int, b: seq<OrderRec>)
    requires forall i :: 0 <= i < |b| ==> b[i].price == price
    ensures QtyAt(price, b) == Sum(b) && CountAt(price, b) == |b|
  {
    if b != [] {
      AllAt(price, b[1..]);
    }
  }

  lemma {:induction false} NoneAt(price: int, b: seq<OrderRec>)
    requires forall i :: 0 <= i < |b| ==> b[i].price != price
    ensures QtyAt(price, b) == 0 && CountAt(price, b) == 0
  {
    if b != [] {
      NoneAt(price, b[1..]);
    }
  }

  /** What rests at a price, split at the end of the front level. */
  lemma {:induction false} AtFront(side: Side, b: seq<OrderRec>, n: nat, price: int)
    requires BestFirst(side, b) && b != [] && n == FrontLen(b[0].price, b)
    ensures price == b[0].price ==> QtyAt(price, b) == Sum(b[..n]) && CountAt(price, b) == n
    ensures price != b[0].price ==>
              QtyAt(price, b) == QtyAt(price, b[n..]) && CountAt(price, b) == CountAt(price, b[n..])
  {
    FrontSplits(side, b, n);
    assert b == b[..n] + b[n..];
    AtAppend(price, b[..n], b[n..]);
    if price == b[0].price {
      AllAt(price, b[..n]);
      NoneAt(price, b[n..]);
    } else {
      NoneAt(price, b[..n]);
    }
  }

  // ----- Snapshots -----

  /** The `i`-th level of a snapshot is a price with everything that rests there, and better than the next. */
  ghost predicate LevelExact(side: Side, b: seq<OrderRec>, ls: seq<PriceLevel>, i: nat) {
    && i < |ls| && ls[i].price in PricesOf(b)
    && ls[i].quantity == QtyAt(ls[i].price, b) && ls[i].count == CountAt(ls[i].price, b)
    && (i + 1 < |ls| ==> Better(side, ls[i].price, ls[i + 1].price))
  }

  /** The order is priced at one of the levels, or the snapshot is full of better ones. */
  ghost predicate Seen(side: Side, o: OrderRec, ls: seq<PriceLevel>, levels: nat) {
    || (exists i :: 0 <= i < |ls| && ls[i].price == o.price)
    || (|ls| == levels && forall i :: 0 <= i < |ls| ==> Better(side, ls[i].price, o.price))
  }

  lemma {:induction false} PricesSuffix(b: seq<OrderRec>, n: nat)
    requires n <= |b|
    ensures PricesOf(b[n..]) <= PricesOf(b)
  {
    if n > 0 {
      PricesSuffix(b[1..], n - 1);
      assert b[n..] == b[1..][n - 1..];
    }
  }

  /** A snapshot of a sorted side shows the best prices, each with exactly what rests there, and skips none. */
  lemma {:induction false} SnapshotIsExact(side: Side, b: seq<OrderRec>, levels: nat, ls: seq<PriceLevel>)
    requires BestFirst(side, b) && ls == Aggregate(b, levels)
    ensures |ls| <= levels && (forall i: nat :: i < |ls| ==> LevelExact(side, b, ls, i))
    ensures forall k :: 0 <= k < |b| ==> Seen(side, b[k], ls, levels)
    decreases levels
  {
    if b != [] && levels > 0 {
      var n := FrontLen(b[0].price, b);
      var rest := ls[1..];
      FrontSplits(side, b, n);
      AtFront(side, b, n, b[0].price);
      SnapshotIsExact(side, b[n..], levels - 1, rest);
      forall i: nat | i < |ls|
        ensures LevelExact(side, b, ls, i)
      {
        LevelOnward(side, b, n, ls, i);
      }
      forall k | 0 <= k < |b|
        ensures Seen(side, b[k], ls, levels)
      {
        SeenOnward(side, b, n, ls, levels, k);
      }
    }
  }

  /** Prices behind the front level come from behind it. */
  lemma {:induction false} PriceBehind(b: seq<OrderRec>, p: int) returns (k: nat)
    requires p in PricesOf(b)
    ensures k < |b| && b[k].price == p
  {
    if b[0].price == p {
      k := 0;
    } else {
      k := PriceBehind(b[1..], p);
      k := k + 1;
    }
  }

  lemma {:induction false} LevelOnward(side: Side, b: seq<OrderRec>, n: nat, ls: seq<PriceLevel>, i: nat)
    requires BestFirst(side, b) && b != [] && n == FrontLen(b[0].price, b) && i < |ls|
    requires ls[0] == PriceLevel(b[0].price, Sum(b[..n]), n)
    requires forall j: nat :: j < |ls| - 1 ==> LevelExact(side, b[n..], ls[1..], j)
    ensures LevelExact(side, b, ls, i)
  {
    FrontSplits(side, b, n);
    if i > 0 {
      assert LevelExact(side, b[n..], ls[1..], i - 1);
      var k := PriceBehind(b[n..], ls[i].price);
      assert b[n..][k] == b[n + k];
      AtFront(side, b, n, ls[i].price);
      PricesSuffix(b, n);
    } else {
      AtFront(side, b, n, b[0].price);
      if |ls| > 1 {
        assert LevelExact(side, b[n..], ls[1..], 0);
        var k := PriceBehind(b[n..], ls[1].price);
        assert b[n..][k] == b[n + k];
      }
    }
  }

  lemma {:induction false} SeenOnward(side: Side, b: seq<OrderRec>, n: nat, ls: seq<PriceLevel>, levels: nat, k: nat)
    requires BestFirst(side, b) && b != [] && n == FrontLen(b[0].price, b) && k < |b| && levels > 0
    requires ls != [] && ls[0].price == b[0].price
    requires forall j :: 0 <= j < |b[n..]| ==> Seen(side, b[n..][j], ls[1..], levels - 1)
    ensures Seen(side, b[k], ls, levels)
  {
    FrontSplits(side, b, n);
    if k >= n {
      var rest := ls[1..];
      assert Seen(side, b[n..][k - n], rest, levels - 1);
      if j :| 0 <= j < |rest| && rest[j].price == b[k].price {
        assert ls[j + 1] == rest[j];
      } else {
        forall i | 0 <= i < |ls|
          ensures Better(side, ls[i].price, b[k].price)
        {
          assert i > 0 ==> ls[i] == rest[i - 1];
        }
      }
    }
  }

  // ----- How far the best prices go -----

  /** The first `k` orders are all those at the best `levels` prices. */
  ghost predicate Shown(b: seq<OrderRec>, levels: nat, k: nat) {
    && k <= |b| && |PricesOf(b[..k])| <= levels
    && (k < |b| ==> |PricesOf(b[..k + 1])| > levels)
  }

  lemma {:induction false} PricesAppend(a: seq<OrderRec>, b: seq<OrderRec>)
    ensures PricesOf(a + b) == PricesOf(a) + PricesOf(b)
  {
    if a == [] {
      assert a + b == b;
    } else {
      assert (a + b)[1..] == a[1..] + b;
      PricesAppend(a[1..], b);
    }
  }

  lemma {:induction false} OnePrice(b: seq<OrderRec>, p: int)
    requires b != [] && forall i :: 0 <= i < |b| ==> b[i].price == p
    ensures PricesOf(b) == {p}
  {
    if |b| > 1 {
      OnePrice(b[1..], p);
    }
  }

  lemma {:induction false} PriceAbsent(b: seq<OrderRec>, p: int)
    requires forall i :: 0 <= i < |b| ==> b[i].price != p
    ensures p !in PricesOf(b)
  {
    if b != [] {
      PriceAbsent(b[1..], p);
    }
  }

  /** Going past the front level takes one price, and what is behind the level counts for itself. */
  lemma {:induction false} PricesBeyondFront(side: Side, b: seq<OrderRec>, n: nat, k: nat)
    requires BestFirst(side, b) && b != [] && n == FrontLen(b[0].price, b) && k <= |b| - n
    ensures |PricesOf(b[..n + k])| == 1 + |PricesOf(b[n..][..k])|
  {
    FrontSplits(side, b, n);
    var behind := b[n..][..k];
    assert b[..n + k] == b[..n] + behind;
    PricesAppend(b[..n], behind);
    OnePrice(b[..n], b[0].price);
    PriceAbsent(behind, b[0].price);
  }

  lemma {:induction false} ShownBeyondFront(side: Side, b: seq<OrderRec>, n: nat, levels: nat, more: nat)
    requires BestFirst(side, b) && b != [] && n == FrontLen(b[0].price, b) && levels > 0
    requires Shown(b[n..], levels - 1, more)
    ensures Shown(b, levels, n + more)
  {
    PricesBeyondFront(side, b, n, more);
    if n + more < |b| {
      PricesBeyondFront(side, b, n, more + 1);
    }
  }

  /** The depth the fill-or-kill check adds up is everything at the best prices, and nothing else. */
  lemma {:induction false} DepthIsShown(side: Side, b: seq<OrderRec>, levels: nat) returns (k: nat)
    requires BestFirst(side, b)
    ensures Shown(b, levels, k) && DepthQty(b, levels) == Sum(b[..k])
    decreases levels
  {
    if b == [] {
      k := 0;
    } else if levels == 0 {
      k := 0;
      assert b[..1] == [b[0]];
      OnePrice(b[..1], b[0].price);
    } else {
      var n := FrontLen(b[0].price, b);
      FrontSplits(side, b, n);
      var more := DepthIsShown(side, b[n..], levels - 1);
      k := n + more;
      ShownBeyondFront(side, b, n, levels, more);
      assert b[..k] == b[..n] + b[n..][..more];
      SumAppend(b[..n], b[n..][..more]);
    }
  }

  lemma {:induction false} PricesPrefix(b: seq<OrderRec>, j: nat, k: nat)
    requires j <= k <= |b|
    ensures |PricesOf(b[..j])| <= |PricesOf(b[..k])|
  {
    assert b[..k] == b[..j] + b[j..k];
    PricesAppend(b[..j], b[j..k]);
    SubsetIsSmaller(PricesOf(b[..j]), PricesOf(b[..k]));
  }

  lemma {:induction false} SubsetIsSmaller(a: set<int>, b: set<int>)
    requires a <= b
    ensures |a| <= |b|
  {
    assert b == a + (b - a);
  }

  /** There is only one such place. */
  lemma {:induction false} ShownOnce(b: seq<OrderRec>, levels: nat, j: nat, k: nat)
    requires Shown(b, levels, j) && Shown(b, levels, k)
    ensures j == k
  {
    if j < k {
      PricesPrefix(b, j + 1, k);
    } else if k < j {
      PricesPrefix(b, k + 1, j);
    }
  }
}
