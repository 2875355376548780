/**
 The shape the book is really kept in: a list of distinct prices, best first, and per price the queue of orders
 resting there. Reading the queues in price order gives the flat list, and every edit of the shape is an edit
 of that list.
 */
module PriceLevels {
  import opened Types
  import opened FlatBook
  import opened EngineSpec

  type View = map<int, seq<OrderRec>>

  /** Strictly best first; in particular no price twice. */
  ghost predicate StrictlySorted(side: Side, prices: seq<int>) {
    forall i, j :: 0 <= i < j < |prices| ==> Key(side, prices[i]) < Key(side, prices[j])
  }

  ghost predicate Covers(prices: seq<int>, view: View) {
    forall i :: 0 <= i < |prices| ==> prices[i] in view
  }

  /** Every queue holds orders of its own price, and at least one. */
  ghost predicate Filed(prices: seq<int>, view: View) {
    forall i :: 0 <= i < |prices| ==> prices[i] in view && view[prices[i]] != [] && QueuedAt(prices[i], view[prices[i]])
  }

  ghost predicate QueuedAt(p: int, q: seq<OrderRec>) {
    forall i :: 0 <= i < |q| ==> q[i].price == p
  }

  function Flat(prices: seq<int>, view: View): seq<OrderRec>
    requires Covers(prices, view)
  {
    if prices == [] then [] else view[prices[0]] + Flat(prices[1..], view)
  }

  lemma {:induction false} FlatFrame(prices: seq<int>, view: View, view': View)
    requires Covers(prices, view)
    requires forall i :: 0 <= i < |prices| ==> prices[i] in view' && view'[prices[i]] == view[prices[i]]
    ensures Flat(prices, view') == Flat(prices, view)
  {
    if prices != [] {
      FlatFrame(prices[1..], view, view');
    }
  }

  lemma HeadIsAlone(side: Side, prices: seq<int>)
    requires prices != [] && StrictlySorted(side, prices)
    ensures prices[0] !in prices[1..] && StrictlySorted(side, prices[1..])
  {
  }

  // ----- Sweeping -----

  /** A list after its front order has been filled by `qty`. */
  function AfterFront(b: seq<OrderRec>, qty: int): seq<OrderRec>
    requires b != []
  {
    (if b[0].remaining == qty then [] else [AfterFill(b[0], qty)]) + b[1..]
  }

  lemma {:induction false} AfterFrontAppend(q: seq<OrderRec>, rest: seq<OrderRec>, qty: int)
    requires q != []
    ensures AfterFront(q + rest, qty) == AfterFront(q, qty) + rest
  {
    assert (q + rest)[1..] == q[1..] + rest;
  }

  /** Filling the front of the best queue fills the front of the flat list. */
  lemma {:induction false} FillFrontOfFlat(side: Side, prices: seq<int>, view: View, qty: int)
    requires prices != [] && StrictlySorted(side, prices) && Covers(prices, view) && view[prices[0]] != []
    ensures Flat(prices, view) != [] && Flat(prices, view)[0] == view[prices[0]][0]
    ensures Flat(prices, view[prices[0] := AfterFront(view[prices[0]], qty)]) == AfterFront(Flat(prices, view), qty)
  {
    var q := view[prices[0]];
    var view' := view[prices[0] := AfterFront(q, qty)];
    HeadIsAlone(side, prices);
    FlatFrame(prices[1..], view, view');
    AfterFrontAppend(q, Flat(prices[1..], view), qty);
  }

  lemma {:induction false} FlatHead(prices: seq<int>, view: View)
    requires Filed(prices, view)
    ensures Flat(prices, view) == [] <==> prices == []
    ensures prices != [] ==> Flat(prices, view)[0].price == prices[0]
  {
    if prices != [] {
      assert prices[0] in prices;
      assert QueuedAt(prices[0], view[prices[0]]);
    }
  }

  // ----- Joining -----

  lemma {:induction false} InsertSkips(o: OrderRec, q: seq<OrderRec>, rest: seq<OrderRec>)
    requires forall i :: 0 <= i < |q| ==> Key(o.side, q[i].price) <= Key(o.side, o.price)
    ensures Insert(o, q + rest) == q + Insert(o, rest)
  {
    if q == [] {
      assert q + rest == rest;
    } else {
      assert (q + rest)[1..] == q[1..] + rest;
      InsertSkips(o, q[1..], rest);
      assert [q[0]] + (q[1..] + Insert(o, rest)) == q + Insert(o, rest);
    }
  }

  /** A better-priced order goes straight to the front. */
  lemma {:induction false} InsertFirst(o: OrderRec, prices: seq<int>, view: View)
    requires Filed(prices, view)
    requires prices == [] || Key(o.side, o.price) < Key(o.side, prices[0])
    ensures Insert(o, Flat(prices, view)) == [o] + Flat(prices, view)
  {
    FlatHead(prices, view);
  }

  /** Joining the queue of a price already in the list. */
  lemma {:induction false} JoinLevel(o: OrderRec, prices: seq<int>, view: View)
    requires StrictlySorted(o.side, prices) && Filed(prices, view) && o.price in prices
    ensures Flat(prices, view[o.price := view[o.price] + [o]]) == Insert(o, Flat(prices, view))
  {
    var p := prices[0];
    var view' := view[o.price := view[o.price] + [o]];
    var rest := prices[1..];
    HeadIsAlone(o.side, prices);
    assert QueuedAt(p, view[p]);
    if p == o.price {
      FlatFrame(rest, view, view');
      InsertFirst(o, rest, view);
      InsertSkips(o, view[p], Flat(rest, view));
      assert view[p] + [o] + Flat(rest, view) == view[p] + ([o] + Flat(rest, view));
    } else {
      JoinLevel(o, rest, view);
      InsertSkips(o, view[p], Flat(rest, view));
    }
  }

  /** Opening a new price at its place in the list. */
  lemma {:induction false} OpenLevel(o: OrderRec, prices: seq<int>, k: nat, view: View)
    requires k <= |prices| && StrictlySorted(o.side, prices) && Filed(prices, view) && o.price !in prices
    requires forall i :: 0 <= i < k ==> Key(o.side, prices[i]) < Key(o.side, o.price)
    requires forall i :: k <= i < |prices| ==> Key(o.side, o.price) < Key(o.side, prices[i])
    ensures Covers(prices[..k] + [o.price] + prices[k..], view[o.price := [o]])
    ensures Flat(prices[..k] + [o.price] + prices[k..], view[o.price := [o]]) == Insert(o, Flat(prices, view))
  {
    var view' := view[o.price := [o]];
    var prices' := prices[..k] + [o.price] + prices[k..];
    if k == 0 {
      assert prices'[1..] == prices;
      FlatFrame(prices, view, view');
      InsertFirst(o, prices, view);
    } else {
      var p := prices[0];
      var rest := prices[1..];
      HeadIsAlone(o.side, prices);
      assert prices'[1..] == rest[..k - 1] + [o.price] + rest[k - 1..];
      OpenLevel(o, rest, k - 1, view);
      assert QueuedAt(p, view[p]);
      InsertSkips(o, view[p], Flat(rest, view));
    }
  }

  // ----- Leaving -----

  lemma {:induction false} DeleteNowhere(id: nat, prices: seq<int>, view: View)
    requires Covers(prices, view)
    requires forall i :: 0 <= i < |prices| ==> id !in Ids(view[prices[i]])
    ensures Delete(id, Flat(prices, view)) == Flat(prices, view)
  {
    if prices != [] {
      DeleteNowhere(id, prices[1..], view);
      DeleteAppend(id, view[prices[0]], Flat(prices[1..], view));
      DeleteAbsent(id, view[prices[0]]);
    }
  }

  lemma {:induction false} FindAppend(id: nat, a: seq<OrderRec>, b: seq<OrderRec>)
    ensures Find(id, a + b) == if Find(id, a).Some? then Find(id, a) else Find(id, b)
  {
    if a == [] {
      assert a + b == b;
    } else {
      assert (a + b)[1..] == a[1..] + b;
      FindAppend(id, a[1..], b);
    }
  }

  lemma {:induction false} FindNowhere(id: nat, prices: seq<int>, view: View)
    requires Covers(prices, view)
    requires forall i :: 0 <= i < |prices| ==> id !in Ids(view[prices[i]])
    ensures Find(id, Flat(prices, view)) == None
  {
    if prices != [] {
      FindNowhere(id, prices[1..], view);
      FindAppend(id, view[prices[0]], Flat(prices[1..], view));
      DeleteAbsent(id, view[prices[0]]);
    }
  }

  /** An id that occurs in one queue only is found in that queue. */
  lemma {:induction false} FindInLevel(id: nat, p: int, prices: seq<int>, view: View)
    requires Covers(prices, view) && p in prices && Find(id, view[p]).Some?
    requires forall i :: 0 <= i < |prices| && prices[i] != p ==> id !in Ids(view[prices[i]])
    ensures Find(id, Flat(prices, view)) == Find(id, view[p])
  {
    FindAppend(id, view[prices[0]], Flat(prices[1..], view));
    if prices[0] != p {
      DeleteAbsent(id, view[prices[0]]);
      FindInLevel(id, p, prices[1..], view);
    }
  }

  /** Leaving the queue of one price. */
  lemma {:induction false} LeaveLevel(id: nat, p: int, side: Side, prices: seq<int>, view: View)
    requires StrictlySorted(side, prices) && Covers(prices, view) && p in prices
    requires forall i :: 0 <= i < |prices| && prices[i] != p ==> id !in Ids(view[prices[i]])
    ensures Flat(prices, view[p := Delete(id, view[p])]) == Delete(id, Flat(prices, view))
  {
    var view' := view[p := Delete(id, view[p])];
    var rest := prices[1..];
    HeadIsAlone(side, prices);
    DeleteAppend(id, view[prices[0]], Flat(rest, view));
    if prices[0] == p {
      FlatFrame(rest, view, view');
      DeleteNowhere(id, rest, view);
    } else {
      LeaveLevel(id, p, side, rest, view);
      DeleteAbsent(id, view[prices[0]]);
    }
  }

  /** An empty queue can be dropped together with its price. */
  lemma {:induction false} DropEmpty(k: nat, prices: seq<int>, view: View)
    requires k < |prices| && Covers(prices, view) && view[prices[k]] == []
    requires prices[k] !in prices[..k] && prices[k] !in prices[k + 1..]
    ensures Covers(prices[..k] + prices[k + 1..], view - {prices[k]})
    ensures Flat(prices[..k] + prices[k + 1..], view - {prices[k]}) == Flat(prices, view)
  {
    var prices' := prices[..k] + prices[k + 1..];
    var view' := view - {prices[k]};
    if k == 0 {
      assert prices' == prices[1..];
      FlatFrame(prices', view, view');
    } else {
      var rest := prices[1..];
      assert prices'[1..] == rest[..k - 1] + rest[k..];
      assert rest[k - 1] == prices[k] && rest[..k - 1] == prices[..k][1..];
      DropEmpty(k - 1, rest, view);
    }
  }

  // ----- Depth -----

  lemma {:induction false} FrontLenOfQueue(p: int, q: seq<OrderRec>, rest: seq<OrderRec>)
    requires QueuedAt(p, q) && (rest == [] || rest[0].price != p)
    ensures FrontLen(p, q + rest) == |q|
  {
    if q == [] {
      assert q + rest == rest;
    } else {
      assert (q + rest)[1..] == q[1..] + rest;
      FrontLenOfQueue(p, q[1..], rest);
    }
  }

  datatype PriceLevel = PriceLevel(price: int, quantity: int, count: nat)

  /** The best `levels` prices of a flat list, each with its total quantity and number of orders. */
  function Aggregate(b: seq<OrderRec>, levels: nat): seq<PriceLevel>
    decreases levels
  {
    if b == [] || levels == 0 then []
    else
      var n := FrontLen(b[0].price, b);
      [PriceLevel(b[0].price, Sum(b[..n]), n)] + Aggregate(b[n..], levels - 1)
  }

  /** What the levels up to the first one out of a taker's reach offer. */
  function ReachedQty(t: OrderRec, ls: seq<PriceLevel>): int {
    if ls == [] || !Reaches(t, ls[0].price) then 0 else ls[0].quantity + ReachedQty(t, ls[1..])
  }

  lemma {:induction false} FrontReached(t: OrderRec, price: int, b: seq<OrderRec>)
    requires Reaches(t, price)
    ensures
      var n, m := FrontLen(price, b), ReachLen(t, b);
      n <= m && FrontLen(price, b[..m]) == n && ReachLen(t, b[n..]) == m - n
  {
    if FrontLen(price, b) > 0 {
      FrontReached(t, price, b[1..]);
      assert b[..ReachLen(t, b)][1..] == b[1..][..ReachLen(t, b) - 1];
      assert b[1..][FrontLen(price, b) - 1..] == b[FrontLen(price, b)..];
    } else {
      assert b[0..] == b;
    }
  }

  /** The first level of a reached list, and what comes after it. */
  lemma {:induction false} FirstReached(t: OrderRec, b: seq<OrderRec>, levels: nat, n: nat, m: nat)
    requires b != [] && levels > 0 && Reaches(t, b[0].price) && n == FrontLen(b[0].price, b) && m == ReachLen(t, b)
    ensures n <= m && ReachLen(t, b[n..]) == m - n
    ensures DepthQty(b[..m], levels) == Sum(b[..n]) + DepthQty(b[n..][..m - n], levels - 1)
  {
    FrontReached(t, b[0].price, b);
    assert b[..m][..n] == b[..n] && b[..m][n..] == b[n..][..m - n];
  }

  /** On an aggregated list, that is the depth of what the taker reaches: what the FOK pre-check adds up. */
  lemma {:induction false} ReachedDepth(t: OrderRec, b: seq<OrderRec>, levels: nat)
    ensures ReachedQty(t, Aggregate(b, levels)) == DepthQty(b[..ReachLen(t, b)], levels)
    decreases levels
  {
    if b != [] && levels > 0 && Reaches(t, b[0].price) {
      var n := FrontLen(b[0].price, b);
      FirstReached(t, b, levels, n, ReachLen(t, b));
      ReachedDepth(t, b[n..], levels - 1);
      assert Aggregate(b, levels)[1..] == Aggregate(b[n..], levels - 1);
    }
  }

  lemma {:induction false} ReachedNonNegative(t: OrderRec, ls: seq<PriceLevel>)
    requires forall i :: 0 <= i < |ls| ==> ls[i].quantity > 0
    ensures ReachedQty(t, ls) >= 0
  {
    if ls != [] {
      ReachedNonNegative(t, ls[1..]);
    }
  }

  /** The aggregate of the flat list, read off the queues. */
  lemma {:induction false} AggregateIsLevels(side: Side, prices: seq<int>, view: View, levels: nat)
    requires StrictlySorted(side, prices) && Filed(prices, view)
    ensures
      var ls := Aggregate(Flat(prices, view), levels);
      && |ls| == Min(levels, |prices|)
      && forall i :: 0 <= i < |ls| ==> ls[i] == PriceLevel(prices[i], Sum(view[prices[i]]), |view[prices[i]]|)
  {
    FlatHead(prices, view);
    if prices != [] && levels > 0 {
      var p := prices[0];
      var rest := Flat(prices[1..], view);
      HeadIsAlone(side, prices);
      assert QueuedAt(p, view[p]);
      FlatHead(prices[1..], view);
      FrontLenOfQueue(p, view[p], rest);
      assert (view[p] + rest)[..|view[p]|] == view[p] && (view[p] + rest)[|view[p]|..] == rest;
      AggregateIsLevels(side, prices[1..], view, levels - 1);
    }
  }
}
