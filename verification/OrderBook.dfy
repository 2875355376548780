/**
 The order book as the program keeps it: sorted price lists, price-to-level maps, queues of order objects with
 cached quantities, and an index for cancels, all edited in place. Each operation is proved to be the
 corresponding operation on the two flat lists.
 */
module OrderBook {
  import opened Types
  import opened FlatBook
  import opened PriceLevels
  import opened EngineSpec
  import opened BookStore
  import opened BookEdits
  import opened BookPicture

  datatype Trade = Trade(maker: Order, taker: Order, price: int, quantity: int)

  /**
   The `i`-th trade carries the `i`-th fill: its maker now holds what the fill leaves (`held` is what orders hold),
   at the maker's price, for the same quantity. The maker rested before and made no earlier trade; it rests no
   longer exactly if it was used up, and only an exhausted taker leaves a maker that is not.
   */
  ghost predicate TradeOk(i: nat, trades: seq<Trade>, fills: seq<Fill>, taker: Order, held: map<Order, OrderRec>,
                          before: set<Order>, after: set<Order>, rem: int)
    requires i < |trades| == |fills|
  {
    var trade, fill := trades[i], fills[i];
    && trade.taker == taker && trade.maker in before && trade.maker in held && held[trade.maker] == fill.maker
    && trade.price == fill.maker.price && trade.quantity == fill.qty
    && (forall j :: 0 <= j < i ==> trades[j].maker != trade.maker)
    && (fill.maker.remaining == 0 <==> trade.maker !in after)
    && (rem > 0 ==> fill.maker.remaining == 0)
  }

  ghost predicate Traded(o: Order, trades: seq<Trade>) {
    exists i :: 0 <= i < |trades| && trades[i].maker == o
  }

  /** The trades of a sweep, which turned the resting orders `before` into `after`. */
  ghost predicate Logged(trades: seq<Trade>, fills: seq<Fill>, taker: Order, held: map<Order, OrderRec>,
                         before: set<Order>, after: set<Order>, rem: int)
  {
    && |trades| == |fills| && after <= before
    && (forall i {:trigger TradeOk(i, trades, fills, taker, held, before, after, rem)} ::
          0 <= i < |trades| ==> TradeOk(i, trades, fills, taker, held, before, after, rem))
    && (forall o {:trigger Traded(o, trades)} :: o in before && o !in after ==> Traded(o, trades))
  }

  lemma LogNone(taker: Order, held: map<Order, OrderRec>, before: set<Order>, rem: int)
    ensures Logged([], [], taker, held, before, before, rem)
  {
  }

  lemma {:induction false} LogOne(trades: seq<Trade>, fills: seq<Fill>, taker: Order, held: map<Order, OrderRec>,
                                  before: set<Order>, after: set<Order>, rem: int,
                                  trade: Trade, fill: Fill, held': map<Order, OrderRec>, after': set<Order>, rem': int)
    requires Logged(trades, fills, taker, held, before, after, rem) && rem > 0 && trade.maker in after
    requires trade.taker == taker && trade.price == fill.maker.price && trade.quantity == fill.qty
    requires after' == after - if fill.maker.remaining == 0 then {trade.maker} else {}
    requires fill.maker.remaining == 0 || rem' <= 0
    requires forall o :: o in held && o !in after ==> o in held' && held'[o] == held[o]
    requires trade.maker in held' && held'[trade.maker] == fill.maker
    ensures Logged(trades + [trade], fills + [fill], taker, held', before, after', rem')
  {
    var ts, fs := trades + [trade], fills + [fill];
    forall i | 0 <= i < |ts|
      ensures TradeOk(i, ts, fs, taker, held', before, after', rem')
    {
      if i < |trades| {
        assert TradeOk(i, trades, fills, taker, held, before, after, rem);
      } else {
        forall j | 0 <= j < i
          ensures ts[j].maker != trade.maker
        {
          assert TradeOk(j, trades, fills, taker, held, before, after, rem);
        }
      }
    }
    forall o | o in before && o !in after'
      ensures Traded(o, ts)
    {
      if o == trade.maker {
        assert ts[|trades|].maker == o;
      } else {
        assert Traded(o, trades);
        var i :| 0 <= i < |trades| && trades[i].maker == o;
        assert ts[i].maker == o;
      }
    }
  }

  lemma {:induction false} LogMore(trades: seq<Trade>, fills: seq<Fill>, taker: Order, held: map<Order, OrderRec>,
                                   before: set<Order>, after: set<Order>, rem: int,
                                   more: seq<Trade>, moreFills: seq<Fill>,
                                   held': map<Order, OrderRec>, after': set<Order>, rem': int)
    requires Logged(trades, fills, taker, held, before, after, rem) && rem > 0
    requires Logged(more, moreFills, taker, held', after, after', rem')
    requires forall o :: o in held && o !in after ==> o in held' && held'[o] == held[o]
    ensures Logged(trades + more, fills + moreFills, taker, held', before, after', rem')
  {
    var ts, fs := trades + more, fills + moreFills;
    forall i | 0 <= i < |ts|
      ensures TradeOk(i, ts, fs, taker, held', before, after', rem')
    {
      if i < |trades| {
        assert TradeOk(i, trades, fills, taker, held, before, after, rem);
      } else {
        assert TradeOk(i - |trades|, more, moreFills, taker, held', after, after', rem');
        forall j | 0 <= j < i
          ensures ts[j].maker != ts[i].maker
        {
          if j < |trades| {
            assert TradeOk(j, trades, fills, taker, held, before, after, rem);
          } else {
            assert ts[j] == more[j - |trades|];
          }
        }
      }
    }
    forall o | o in before && o !in after'
      ensures Traded(o, ts)
    {
      if o in after {
        assert Traded(o, more);
        var i :| 0 <= i < |more| && more[i].maker == o;
        assert ts[|trades| + i].maker == o;
      } else {
        assert Traded(o, trades);
        var i :| 0 <= i < |trades| && trades[i].maker == o;
        assert ts[i].maker == o;
      }
    }
  }

  ghost predicate Kept(m: map<Order, OrderRec>, m': map<Order, OrderRec>) {
    forall o :: o in m ==> o in m' && m'[o] == m[o]
  }

  /** What orders that are no longer resting hold does not change while more makers are used up. */
  lemma StillHeld(after: set<Order>, recs: map<Order, OrderRec>, used: map<Order, OrderRec>,
                  recs': map<Order, OrderRec>, used': map<Order, OrderRec>)
    requires after == recs.Keys && Kept(used, used')
    ensures forall o :: o in recs + used && o !in after ==> o in recs' + used' && (recs' + used')[o] == (recs + used)[o]
  {
  }

  lemma KeptOn(m: map<Order, OrderRec>, m': map<Order, OrderRec>, m'': map<Order, OrderRec>)
    requires Kept(m, m') && Kept(m', m'')
    ensures Kept(m, m'')
  {
  }

  lemma Regroup(a: seq<Fill>, b: seq<Fill>, c: seq<Fill>)
    ensures a + b + c == a + (b + c)
  {
  }

  /** Binary search for the first price that is not better than `p`: where `p` is, or belongs. */
  method SearchPrice(side: Side, prices: seq<int>, p: int) returns (i: nat)
    requires StrictlySorted(side, prices)
    ensures i <= |prices|
    ensures forall j :: 0 <= j < i ==> Key(side, prices[j]) < Key(side, p)
    ensures forall j :: i <= j < |prices| ==> Key(side, p) <= Key(side, prices[j])
  {
    i := 0;
    var n := |prices|;
    while i < n
      invariant 0 <= i <= n <= |prices|
      invariant forall j :: 0 <= j < i ==> Key(side, prices[j]) < Key(side, p)
      invariant forall j :: n <= j < |prices| ==> Key(side, p) <= Key(side, prices[j])
    {
      var h := (i + n) / 2;
      if if side.Buy? then prices[h] <= p else prices[h] >= p {
        n := h;
      } else {
        i := h + 1;
      }
    }
  }

  lemma {:induction false} PriceFound(side: Side, prices: seq<int>, p: int, i: nat)
    requires p in prices && i <= |prices|
    requires forall j :: 0 <= j < i ==> Key(side, prices[j]) < Key(side, p)
    requires forall j :: i <= j < |prices| ==> Key(side, p) <= Key(side, prices[j])
    requires StrictlySorted(side, prices)
    ensures i < |prices| && prices[i] == p
  {
    var k :| 0 <= k < |prices| && prices[k] == p;
    assert i <= k;
    assert Key(side, prices[k]) <= Key(side, prices[i]);
  }

  /** A level has the queue and the cached quantity that the maps say. */
  ghost predicate LevelHolds(n: PriceNode, queues: map<PriceNode, seq<Order>>, sums: map<PriceNode, int>)
    reads n`orders, n`quantity
  {
    n in queues && n in sums && n.orders == queues[n] && n.quantity == sums[n]
  }

  ghost predicate LevelsHold(queues: map<PriceNode, seq<Order>>, sums: map<PriceNode, int>)
    reads queues.Keys
  {
    forall n {:trigger LevelHolds(n, queues, sums)} :: n in queues ==> LevelHolds(n, queues, sums)
  }

  ghost predicate OrderHolds(o: Order, held: map<Order, OrderRec>)
    reads o
  {
    o in held && o.Rec() == held[o]
  }

  ghost predicate OrdersHold(held: map<Order, OrderRec>)
    reads held.Keys
  {
    forall o {:trigger OrderHolds(o, held)} :: o in held ==> OrderHolds(o, held)
  }

  lemma {:induction false} LevelsFewer(queues: map<PriceNode, seq<Order>>, sums: map<PriceNode, int>, node: PriceNode)
    requires LevelsHold(queues, sums)
    ensures LevelsHold(queues - {node}, sums - {node})
  {
    forall n | n in queues && n != node
      ensures LevelHolds(n, queues - {node}, sums - {node})
    {
      assert LevelHolds(n, queues, sums);
    }
  }

  lemma {:induction false} LevelsMore(queues: map<PriceNode, seq<Order>>, sums: map<PriceNode, int>, node: PriceNode,
                                      queues': map<PriceNode, seq<Order>>, sums': map<PriceNode, int>)
    requires LevelsHold(queues - {node}, sums - {node}) && LevelHolds(node, queues', sums')
    requires forall n :: n in queues' && n != node ==> n in queues && queues'[n] == queues[n]
    requires forall n :: n in sums && n != node ==> n in sums' && sums'[n] == sums[n]
    ensures LevelsHold(queues', sums')
  {
    forall n | n in queues' && n != node
      ensures LevelHolds(n, queues', sums')
    {
      assert LevelHolds(n, queues - {node}, sums - {node});
    }
  }

  lemma {:induction false} OrdersFewer(held: map<Order, OrderRec>, o: Order)
    requires OrdersHold(held)
    ensures OrdersHold(held - {o})
  {
    forall x | x in held - {o}
      ensures OrderHolds(x, held - {o})
    {
      assert OrderHolds(x, held);
    }
  }

  lemma {:induction false} OrdersMore(held: map<Order, OrderRec>, o: Order, r: OrderRec)
    requires OrdersHold(held - {o}) && o.Rec() == r
    ensures OrdersHold(held[o := r])
  {
    forall x | x in held && x != o
      ensures OrderHolds(x, held[o := r])
    {
      assert OrderHolds(x, held - {o});
    }
  }

  lemma {:induction false} OrdersBoth(a: map<Order, OrderRec>, b: map<Order, OrderRec>)
    requires OrdersHold(a) && OrdersHold(b)
    ensures OrdersHold(a + b)
  {
    forall x | x in a + b
      ensures OrderHolds(x, a + b)
    {
      assert OrderHolds(x, if x in b then b else a);
    }
  }

  class OrderBook {
    var bidPrices: seq<int>
    var bids: map<int, PriceNode>
    var askPrices: seq<int>
    var asks: map<int, PriceNode>
    var orders: map<nat, OrderLoc>

    // What the fields and objects hold, as one coherent value, and the makers the match under way has used up.
    ghost var picture: Picture
    ghost var used: map<Order, OrderRec>

    // What callers see of it: the two flat lists, the resting order objects and the levels.
    ghost var flat: Book
    ghost var resting: set<Order>
    ghost var levels: set<PriceNode>

    constructor ()
      ensures Valid() && flat == Start.book && resting == {} && levels == {} && orders == map[]
    {
      bidPrices, askPrices := [], [];
      bids, asks, orders := map[], map[], map[];
      picture := Pic(Layout([], map[], [], map[], map[]), Store(map[], map[], map[]), Start.book);
      used := map[];
      flat, resting, levels := Start.book, {}, {};
    }

    ghost predicate Shows(l: Layout)
      reads `bidPrices, `bids, `askPrices, `asks, `orders
    {
      l == Layout(bidPrices, bids, askPrices, asks, orders)
    }

    /** Fields and objects hold what the picture says. */
    ghost predicate Reflects()
      reads `bidPrices, `bids, `askPrices, `asks, `orders, `picture, `used
      reads picture.st.queues.Keys, picture.st.recs.Keys, used.Keys
    {
      && Shows(picture.l)
      && LevelsHold(picture.st.queues, picture.st.sums)
      && OrdersHold(picture.st.recs)
      && OrdersHold(used) && used.Keys !! picture.st.recs.Keys
    }

    lemma LevelIs(node: PriceNode)
      requires Reflects() && node in Levels()
      ensures node in picture.st.sums && node.orders == picture.st.queues[node]
      ensures node.quantity == picture.st.sums[node]
    {
      assert LevelHolds(node, picture.st.queues, picture.st.sums);
    }

    lemma OrderIs(order: Order)
      requires Reflects() && order in Resting()
      ensures order.Rec() == picture.st.recs[order]
    {
      assert OrderHolds(order, picture.st.recs);
    }

    /** What the resting orders and the used-up makers hold. */
    ghost function Held(): map<Order, OrderRec>
      reads `picture, `used
    {
      picture.st.recs + used
    }

    ghost predicate BetweenLevels()
      reads `bidPrices, `bids, `askPrices, `asks, `orders, `picture, `used
      reads picture.st.queues.Keys, picture.st.recs.Keys, used.Keys
    {
      Reflects() && NoneEmpty(picture.st)
    }

    /** The representation invariant, between operations. */
    ghost predicate Settled()
      reads `bidPrices, `bids, `askPrices, `asks, `orders, `picture, `used
      reads picture.st.queues.Keys, picture.st.recs.Keys, used.Keys
    {
      BetweenLevels() && used == map[]
    }

    ghost function Resting(): set<Order>
      reads `picture
    {
      picture.st.recs.Keys
    }

    ghost function Levels(): set<PriceNode>
      reads `picture
    {
      picture.st.queues.Keys
    }

    /** Take a picture for the book's own, once fields and objects hold what it says. */
    ghost method Adopt(p: Picture)
      requires Shows(p.l) && LevelsHold(p.st.queues, p.st.sums) && OrdersHold(p.st.recs)
      requires OrdersHold(used) && used.Keys !! p.st.recs.Keys
      modifies `picture
      ensures Reflects() && picture == p
    {
      picture := p;
    }

    /** The invariant, and what callers see of one side. */
    ghost predicate InOrder(side: Side)
      reads this, levels, resting
    {
      && levels == Levels() && resting == Resting() && used == map[]
      && Settled() && flat.On(side) == picture.flat.On(side)
    }

    /** The representation invariant as callers rely on it; the trigger keeps it folded in their proofs. */
    ghost predicate Valid()
      reads this, levels, resting
    {
      forall side {:trigger InOrder(side)} :: InOrder(side)
    }

    lemma Unfold()
      requires Valid()
      ensures Settled() && flat == picture.flat && resting == Resting() && levels == Levels()
    {
      assert InOrder(Buy) && InOrder(Sell);
    }

    /** Bring what callers see up to date. */
    ghost method Publish(b: Book)
      requires Settled() && b == picture.flat
      modifies `flat, `resting, `levels
      ensures Valid() && flat == b && resting == Resting() && levels == Levels()
    {
      flat, resting, levels := b, Resting(), Levels();
    }

    /** One fill against the front order of a level: the loop body of the level's sweep. */
    method FillFront(taker: Order, node: PriceNode, maker: Order) returns (trade: Trade)
      requires node.orders != [] && node.orders[0] == maker && taker != maker
      requires taker.remaining > 0 && maker.remaining > 0
      modifies `orders, taker`remaining, node`quantity, node`orders, maker`remaining, maker`status
      ensures
        var qty := old(Min(taker.remaining, maker.remaining));
        && trade == Trade(maker, taker, node.price, qty)
        && maker.Rec() == AfterFill(old(maker.Rec()), qty)
        && maker.remaining == old(maker.remaining) - qty
        && maker.status == (if maker.remaining == 0 then STATUS_FILLED else STATUS_PARTIALLY_FILLED)
        && taker.remaining == old(taker.remaining) - qty
        && node.quantity == old(node.quantity) - qty
        && node.orders == (if maker.remaining == 0 then old(node.orders)[1..] else old(node.orders))
        && orders == (if maker.remaining == 0 then old(orders) - {maker.id} else old(orders))
    {
      var fillQty := Min(taker.remaining, maker.remaining);
      trade := Trade(maker, taker, node.price, fillQty);
      taker.remaining := taker.remaining - fillQty;
      maker.remaining := maker.remaining - fillQty;
      node.quantity := node.quantity - fillQty;
      if maker.remaining == 0 {
        maker.status := STATUS_FILLED;
        node.orders := node.orders[1..];
        orders := orders - {maker.id};
      } else {
        maker.status := STATUS_PARTIALLY_FILLED;
      }
    }

    /** Record a fill in the picture; a maker it used up is set aside. */
    ghost method RecordFill(node: PriceNode, maker: Order, m: OrderRec, r: OrderRec, qty: int, p: Picture)
      requires node in Levels() && node in picture.st.sums && picture.st.queues[node] != [] && maker in Resting()
      requires FillShown(picture, node, maker, m, qty, p) && Shows(p.l) && LevelHolds(node, p.st.queues, p.st.sums)
      requires LevelsHold(picture.st.queues - {node}, picture.st.sums - {node})
      requires OrdersHold(picture.st.recs - {maker}) && maker.Rec() == r == AfterFill(m, qty)
      requires OrdersHold(used) && used.Keys !! picture.st.recs.Keys
      modifies `picture, `used
      ensures Reflects() && picture == p
      ensures used == if m.remaining == qty then old(used)[maker := r] else old(used)
    {
      LevelsMore(picture.st.queues, picture.st.sums, node, p.st.queues, p.st.sums);
      if m.remaining == qty {
        OrdersFewer(used, maker);
        OrdersMore(used, maker, r);
        used := used[maker := r];
      } else {
        OrdersMore(picture.st.recs, maker, r);
      }
      Adopt(p);
    }

    /** The same fill, recorded in the picture. */
    method FillPictured(taker: Order, node: PriceNode, maker: Order, ghost p: Picture) returns (trade: Trade)
      requires Reflects() && taker !in Resting() && taker !in used && taker.remaining > 0
      requires node in Levels() && picture.st.queues[node] != [] && picture.st.queues[node][0] == maker
      requires maker in Resting() && maker.remaining > 0 && node in picture.st.sums
      requires FillShown(picture, node, maker, picture.st.recs[maker], Min(taker.remaining, maker.remaining), p)
      modifies `orders, `picture, `used, taker`remaining, node`quantity, node`orders, maker`remaining, maker`status
      ensures
        var qty := old(Min(taker.remaining, maker.remaining));
        && Reflects() && picture == p
        && trade == Trade(maker, taker, node.price, qty)
        && used == (if maker.remaining == 0 then old(used)[maker := maker.Rec()] else old(used))
        && maker.Rec() == AfterFill(old(maker.Rec()), qty)
        && taker.remaining == old(taker.remaining) - qty
    {
      ghost var st, m := picture.st, picture.st.recs[maker];
      LevelIs(node);
      OrderIs(maker);
      LevelsFewer(st.queues, st.sums, node);
      OrdersFewer(st.recs, maker);
      trade := FillFront(taker, node, maker);
      RecordFill(node, maker, m, maker.Rec(), trade.quantity, p);
    }

    /** The body of the loop below: one more trade of the sweep. */
    method FillNext(taker: Order, node: PriceNode, front: Order, trades: seq<Trade>, ghost pre: seq<Fill>,
                    ghost fills: seq<Fill>,
                    ghost before: set<Order>, ghost t: OrderRec, ghost all: Swept, ghost other: seq<OrderRec>)
      returns (trades': seq<Trade>, ghost fills': seq<Fill>)
      requires Reflects() && taker !in Resting() && taker !in used && taker.remaining > 0 && Reaches(t, node.price)
      requires Sweeping(picture, node, taker.remaining, t, pre + fills, all, other)
      requires picture.st.queues[node] != [] && picture.st.queues[node][0] == front
      requires Logged(trades, fills, taker, Held(), before, Resting(), taker.remaining)
      modifies `orders, `picture, `used, taker`remaining, node`quantity, node`orders, front`remaining, front`status
      ensures Reflects() && Sweeping(picture, node, taker.remaining, t, pre + fills', all, other)
      ensures Logged(trades', fills', taker, Held(), before, Resting(), taker.remaining)
      ensures taker !in used && Kept(old(used), used)
      ensures Levels() == old(Levels())
      ensures 0 <= taker.remaining < old(taker.remaining)
    {
      FrontFillable(picture, node, taker.remaining);
      ghost var p, rem, m, settled, held := picture, taker.remaining, picture.st.recs[front], used, Held();
      OrderIs(front);
      ghost var qty := Min(rem, front.remaining);
      ghost var fill := Fill(AfterFill(m, qty), qty);
      FilledShown(p, node, qty);
      var trade := FillPictured(taker, node, front, Filled(p, node, qty));
      trades', fills' := trades + [trade], fills + [fill];
      FilledSweeping(p, node, qty, rem, m, t, pre + fills, all, other, picture, taker.remaining, fill);
      Regroup(pre, fills, [fill]);
      StillHeld(p.st.recs.Keys, p.st.recs, settled, picture.st.recs, used);
      LogOne(trades, fills, taker, held, before, p.st.recs.Keys, rem, trade, fill, Held(), Resting(), taker.remaining);
    }

    /** Consume one level from the front until it or the taker is exhausted. */
    method FillLevel(taker: Order, node: PriceNode, ghost pre: seq<Fill>,
                     ghost t: OrderRec, ghost all: Swept, ghost other: seq<OrderRec>)
      returns (trades: seq<Trade>, ghost fills: seq<Fill>)
      requires Reflects() && taker !in Resting() && taker !in used && taker.remaining > 0 && Reaches(t, node.price)
      requires Sweeping(picture, node, taker.remaining, t, pre, all, other)
      modifies `orders, `picture, `used, taker`remaining, node`quantity
      modifies node`orders, Resting()`remaining, Resting()`status
      ensures Reflects() && Sweeping(picture, node, taker.remaining, t, pre + fills, all, other)
      ensures Logged(trades, fills, taker, Held(), old(Resting()), Resting(), taker.remaining)
      ensures taker !in used && Kept(old(used), used)
      ensures Levels() == old(Levels()) && 0 <= taker.remaining <= old(taker.remaining)
      ensures taker.remaining == 0 || picture.st.queues[node] == []
    {
      trades, fills := [], [];
      assert pre + fills == pre;
      ghost var before := Resting();
      LogNone(taker, Held(), before, taker.remaining);
      LevelIs(node);
      while taker.remaining > 0 && |node.orders| > 0
        invariant Reflects() && Sweeping(picture, node, taker.remaining, t, pre + fills, all, other)
        invariant Logged(trades, fills, taker, Held(), before, Resting(), taker.remaining)
        invariant taker !in used && Kept(old(used), used)
        invariant Levels() == old(Levels()) && 0 <= taker.remaining <= old(taker.remaining)
        invariant node.orders == picture.st.queues[node]
        decreases taker.remaining
      {
        var front := node.orders[0];
        FrontFillable(picture, node, taker.remaining);
        ghost var sofar := used;
        trades, fills := FillNext(taker, node, front, trades, pre, fills, before, t, all, other);
        KeptOn(old(used), sofar, used);
        LevelIs(node);
      }
    }

    function Prices(side: Side): seq<int>
      reads `bidPrices, `askPrices
    {
      if side.Buy? then bidPrices else askPrices
    }

    function Nodes(side: Side): map<int, PriceNode>
      reads `bids, `asks
    {
      if side.Buy? then bids else asks
    }

    /** Drop an emptied level that holds position `k` of its side's price list. */
    method DropLevel(side: Side, k: nat, price: int, ghost node: PriceNode, ghost p: Picture)
      requires Reflects() && k < |Prices(side)| && Prices(side)[k] == price
      requires p.l == CloseLayout(picture.l, side, k) && p.st == CloseStore(picture.st, node)
      modifies `bids, `bidPrices, `asks, `askPrices, `picture
      ensures Reflects() && picture == p
    {
      if side.Buy? {
        bids, bidPrices := bids - {price}, bidPrices[..k] + bidPrices[k + 1..];
      } else {
        asks, askPrices := asks - {price}, askPrices[..k] + askPrices[k + 1..];
      }
      LevelsFewer(picture.st.queues, picture.st.sums, node);
      Adopt(p);
    }

    /** The end of a turn of the matching loop: drop the level if it has been emptied. */
    method DropIfEmpty(side: Side, best: int, node: PriceNode, ghost rem: int,
                       ghost fills: seq<Fill>, ghost t: OrderRec, ghost all: Swept, ghost other: seq<OrderRec>)
      requires Reflects() && Sweeping(picture, node, rem, t, fills, all, other) && node.side == side
      requires node.price == best
      modifies `bids, `bidPrices, `asks, `askPrices, `picture
      ensures BetweenLevels() && SweepingSide(picture, side, rem, t, fills, all, other)
      ensures Levels() <= old(Levels()) && picture.st.recs == old(picture.st.recs)
      ensures old(picture.st.queues[node]) == [] ==> |Prices(side)| < old(|Prices(side)|)
    {
      ZeroIffEmpty(picture, node);
      LevelIs(node);
      if node.quantity == 0 {
        LeaveEmptied(picture, side, node, rem, t, fills, all, other);
        DropLevel(side, 0, best, node, Closed(picture, node, 0));
      } else {
        StayInLevel(picture, side, node, rem, t, fills, all, other);
      }
    }

    /** One turn of the matching loop: fill the best level of a side, and drop it if that emptied it. */
    method MatchBest(taker: Order, side: Side, best: int, ghost pre: seq<Fill>,
                     ghost t: OrderRec, ghost all: Swept, ghost other: seq<OrderRec>)
      returns (trades: seq<Trade>, ghost fills: seq<Fill>)
      requires BetweenLevels() && taker !in Resting() && taker !in used && taker.remaining > 0
      requires Prices(side) != [] && Prices(side)[0] == best && Reaches(t, best)
      requires SweepingSide(picture, side, taker.remaining, t, pre, all, other)
      modifies this, taker`remaining, Levels()`quantity, Levels()`orders, Resting()`remaining, Resting()`status
      ensures BetweenLevels() && SweepingSide(picture, side, taker.remaining, t, pre + fills, all, other)
      ensures Logged(trades, fills, taker, Held(), old(Resting()), Resting(), taker.remaining)
      ensures taker !in used && Kept(old(used), used)
      ensures Levels() <= old(Levels()) && 0 <= taker.remaining <= old(taker.remaining)
      ensures taker.remaining == 0 || |Prices(side)| < old(|Prices(side)|)
    {
      BestNode(picture, side);
      var node := Nodes(side)[best];
      EnterLevel(picture, side, node, taker.remaining, t, pre, all, other);
      trades, fills := FillLevel(taker, node, pre, t, all, other);
      DropIfEmpty(side, best, node, taker.remaining, pre + fills, t, all, other);
    }

    /** The matching loop on one side of the book. */
    method MatchSide(taker: Order, side: Side, ghost all: Swept, ghost other: seq<OrderRec>)
      returns (trades: seq<Trade>, ghost fills: seq<Fill>)
      requires Settled() && taker !in Resting() && side == taker.side.Opposite()
      requires all == Sweep(taker.Rec(), taker.remaining, picture.flat.On(side))
      requires other == picture.flat.On(side.Opposite())
      modifies this, taker`remaining, Levels()`quantity, Levels()`orders, Resting()`remaining, Resting()`status
      ensures BetweenLevels() && picture.flat.On(side.Opposite()) == other
      ensures all == Swept(fills, picture.flat.On(side), taker.remaining)
      ensures Logged(trades, fills, taker, Held(), old(Resting()), Resting(), taker.remaining)
      ensures taker !in Resting() && taker !in used && Levels() <= old(Levels())
    {
      ghost var t, before := taker.Rec(), Resting();
      var limited, limit := taker.typ == LIMIT, taker.price;
      trades, fills := [], [];
      ResumeStart(t, t.remaining, picture.flat.On(side));
      LogNone(taker, Held(), before, taker.remaining);
      while taker.remaining > 0 && |Prices(side)| > 0
        invariant BetweenLevels() && taker !in Resting() && taker !in used
        invariant SweepingSide(picture, side, taker.remaining, t, fills, all, other)
        invariant Logged(trades, fills, taker, Held(), before, Resting(), taker.remaining)
        invariant Levels() <= old(Levels()) && taker.remaining <= t.remaining
        decreases taker.remaining, |Prices(side)|
      {
        var best := Prices(side)[0];
        if limited && (if side.Sell? then best > limit else best < limit) {
          break;
        }
        assert Reaches(t, best);
        ghost var held, after, rem, sofar, done := Held(), Resting(), taker.remaining, fills, trades;
        ghost var recs, settled := picture.st.recs, used;
        var more;
        ghost var moreFills;
        more, moreFills := MatchBest(taker, side, best, fills, t, all, other);
        trades, fills := trades + more, fills + moreFills;
        StillHeld(after, recs, settled, picture.st.recs, used);
        LogMore(done, sofar, taker, held, before, after, rem, more, moreFills, Held(), Resting(), taker.remaining);
      }
      SweepOver(picture, side, taker.remaining, t, fills, all, other);
    }

    /** Settle the taker's status once its sweep is over. */
    method UpdateStatus(taker: Order, ghost t: OrderRec)
      requires taker.Rec() == t.(remaining := taker.remaining)
      modifies taker`status
      ensures taker.Rec() == AfterMatch(t, taker.remaining)
    {
      if taker.remaining == 0 {
        taker.status := STATUS_FILLED;
      } else if taker.quantity - taker.remaining > 0 {
        taker.status := STATUS_PARTIALLY_FILLED;
      }
    }

    /** Once a match is over, the makers it used up are no longer the book's business. */
    ghost method Forget() returns (held: map<Order, OrderRec>)
      requires BetweenLevels()
      modifies `used
      ensures Settled() && held == old(Held()) && OrdersHold(held)
    {
      OrdersBoth(picture.st.recs, used);
      held := Held();
      used := map[];
    }

    /** The whole run of the matching loop, after which the used-up makers are no longer the book's business. */
    method MatchRun(taker: Order, ghost side: Side, ghost all: Swept)
      returns (trades: seq<Trade>, ghost held: map<Order, OrderRec>)
      requires Settled() && taker !in Resting() && side == taker.side.Opposite()
      requires all == Sweep(taker.Rec(), taker.remaining, picture.flat.On(side))
      modifies this, taker`remaining
      modifies Levels()`quantity, Levels()`orders, Resting()`remaining, Resting()`status
      ensures Settled() && taker !in Resting() && Levels() <= old(Levels())
      ensures taker.remaining == all.remaining && picture.flat == old(picture.flat).With(side, all.book)
      ensures OrdersHold(held) && taker !in held
      ensures Logged(trades, all.fills, taker, held, old(Resting()), Resting(), taker.remaining)
    {
      ghost var fills, p;
      p := picture;
      trades, fills := MatchSide(taker, taker.side.Opposite(), all, picture.flat.On(side.Opposite()));
      held := Forget();
    }

    /**
     Execute a taker against the other side. `t` is the taker and `r` its sweep of the flat list; `held` is what its
     makers hold afterwards.
     */
    method Match(taker: Order, ghost t: OrderRec, ghost side: Side, ghost r: Swept)
      returns (trades: seq<Trade>, ghost held: map<Order, OrderRec>)
      requires Valid() && taker !in resting
      requires t == taker.Rec() && side == t.side.Opposite() && r == Sweep(t, t.remaining, flat.On(side))
      modifies this, taker`remaining, taker`status
      modifies levels`quantity, levels`orders, resting`remaining, resting`status
      ensures Valid() && taker !in resting && levels <= old(levels)
      ensures taker.Rec() == AfterMatch(t, r.remaining) && flat == old(flat).With(side, r.book)
      ensures Logged(trades, r.fills, taker, held, old(resting), resting, taker.remaining)
      ensures OrdersHold(held) && taker !in held
    {
      Unfold();
      trades, held := MatchRun(taker, side, r);
      UpdateStatus(taker, t);
      Publish(picture.flat);
    }

    // ----- Adding -----

    /** File a new, empty level at position `i` of its side's price list. */
    method FileLevel(side: Side, price: int, i: nat, node: PriceNode, ghost p: Picture)
      requires Reflects() && node.side == side && node.price == price && i <= |Prices(side)|
      requires p.l == OpenLayout(picture.l, i, node) && p.st == OpenStore(picture.st, node)
      requires node.orders == [] && node.quantity == 0
      modifies `bids, `bidPrices, `asks, `askPrices, `picture
      ensures Reflects() && picture == p
    {
      if side.Buy? {
        bids, bidPrices := bids[price := node], bidPrices[..i] + [price] + bidPrices[i..];
      } else {
        asks, askPrices := asks[price := node], askPrices[..i] + [price] + askPrices[i..];
      }
      LevelsFewer(picture.st.queues, picture.st.sums, node);
      LevelsMore(picture.st.queues, picture.st.sums, node, p.st.queues, p.st.sums);
      Adopt(p);
    }

    /** Open an empty level for a price that has none. */
    method OpenLevel(side: Side, price: int) returns (node: PriceNode, ghost k: nat)
      requires Reflects() && price !in Nodes(side)
      modifies `bids, `bidPrices, `asks, `askPrices, `picture
      ensures Reflects() && fresh(node) && node.side == side && node.price == price
      ensures Openable(old(picture), node, k) && picture == Opened(old(picture), node, k)
    {
      SideSorted(picture, side);
      node := new PriceNode(side, price);
      var i := SearchPrice(side, Prices(side), price);
      k := i;
      FileLevel(side, price, i, node, Opened(picture, node, i));
    }

    /** Queue an order at a level and index it. */
    method PushBack(node: PriceNode, order: Order, ghost p: Picture)
      requires Reflects() && used == map[] && node in Levels() && node in picture.st.sums
      requires p.l == picture.l.(index := picture.l.index[order.id := OrderLoc(node, order)])
      requires p.st == PushStore(picture.st, node, order, order.Rec())
      modifies `orders, `picture, node`quantity, node`orders
      ensures Reflects() && picture == p
    {
      ghost var st := picture.st;
      LevelIs(node);
      LevelsFewer(st.queues, st.sums, node);
      OrdersFewer(st.recs, order);
      node.orders := node.orders + [order];
      node.quantity := node.quantity + order.remaining;
      orders := orders[order.id := OrderLoc(node, order)];
      LevelsMore(st.queues, st.sums, node, p.st.queues, p.st.sums);
      OrdersMore(st.recs, order, order.Rec());
      Adopt(p);
    }

    method AddToLevel(order: Order, node: PriceNode, ghost r: OrderRec)
      requires Settled() && r == order.Rec() && Joinable(picture, node, order, r)
      modifies `orders, `picture, node`quantity, node`orders
      ensures Settled() && Resting() == old(Resting()) + {order} && Levels() == old(Levels())
      ensures picture.flat.On(node.side.Opposite()) == old(picture.flat.On(node.side.Opposite()))
      ensures picture.flat.On(node.side) == Insert(r, old(picture.flat.On(node.side)))
    {
      ghost var p := picture;
      LevelIs(node);
      PushBack(node, order, Joined(p, node, order, r));
      JoinedFlat(p, node, order, r, picture);
    }

    method AddToNewLevel(order: Order, side: Side, price: int, ghost r: OrderRec) returns (node: PriceNode)
      requires Settled() && price !in Nodes(side) && order !in Resting()
      requires r == order.Rec() && r.id !in orders && r.remaining > 0 && r.price == price && r.side == side
      modifies `bids, `bidPrices, `asks, `askPrices, `orders, `picture
      ensures Settled() && Resting() == old(Resting()) + {order} && Levels() == old(Levels()) + {node} && fresh(node)
      ensures picture.flat.On(side.Opposite()) == old(picture.flat.On(side.Opposite()))
      ensures picture.flat.On(side) == Insert(r, old(picture.flat.On(side)))
    {
      ghost var p := picture;
      ghost var k;
      node, k := OpenLevel(side, price);
      PushBack(node, order, Joined(picture, node, order, r));
      OpenedFlat(p, node, k, order, r, picture);
    }

    /** Join the queue of a price, which is opened if need be. */
    method Enqueue(order: Order, side: Side, price: int, ghost r: OrderRec)
      requires Settled() && order !in Resting() && r == order.Rec() && r.side == side && r.price == price
      requires r.remaining > 0 && r.id !in orders
      modifies `bids, `bidPrices, `asks, `askPrices, `orders, `picture, Levels()`quantity, Levels()`orders
      ensures Settled() && Resting() == old(Resting()) + {order} && fresh(Levels() - old(Levels()))
      ensures picture.flat == old(picture.flat).With(side, Insert(r, old(picture.flat).On(side)))
    {
      if price in Nodes(side) {
        FoundLevel(picture, side, price);
        AddToLevel(order, Nodes(side)[price], r);
      } else {
        var _ := AddToNewLevel(order, side, price, r);
      }
    }

    /** Rest an order; `r` is the order as it will rest. */
    method AddOrder(order: Order, ghost r: OrderRec)
      requires Valid() && order !in resting && order.remaining > 0 && order.id !in orders
      requires r == order.Rec().(status := STATUS_OPEN)
      modifies this, order`status, levels`quantity, levels`orders
      ensures Valid() && resting == old(resting) + {order} && fresh(levels - old(levels))
      ensures order.Rec() == r && flat == old(flat).With(r.side, Insert(r, old(flat).On(r.side)))
    {
      Unfold();
      order.status := STATUS_OPEN;
      Enqueue(order, order.side, order.price, r);
      Publish(picture.flat);
    }

    // ----- Cancelling -----

    method Detach(node: PriceNode, order: Order, id: nat)
      modifies `orders, node`quantity, node`orders
      ensures orders == old(orders) - {id} && node.orders == Without(old(node.orders), order)
      ensures node.quantity == old(node.quantity) - order.remaining
    {
      node.quantity := node.quantity - order.remaining;
      node.orders := Without(node.orders, order);
      orders := orders - {id};
    }

    /** Take an indexed order out of its level and out of the index. */
    method Unlink(node: PriceNode, order: Order, id: nat, ghost p: Picture)
      requires Reflects() && used == map[] && QueuedIn(picture.st, node, order) && order.id == id
      requires p.l == picture.l.(index := picture.l.index - {id}) && p.st == RemoveStore(picture.st, node, order)
      modifies `orders, `picture, node`quantity, node`orders
      ensures Reflects() && used == map[] && picture == p
    {
      ghost var st := picture.st;
      LevelIs(node);
      OrderIs(order);
      LevelsFewer(st.queues, st.sums, node);
      OrdersFewer(st.recs, order);
      assert p.st.recs == st.recs - {order};
      Detach(node, order, id);
      LevelsMore(st.queues, st.sums, node, p.st.queues, p.st.sums);
      Adopt(p);
    }

    /** Drop a level if it has been emptied: its place is found by binary search. */
    method Prune(side: Side, price: int, node: PriceNode)
      requires Reflects() && node in Levels() && node.side == side && node.price == price
      requires OthersNonEmpty(picture, node) && used == map[]
      modifies `bids, `bidPrices, `asks, `askPrices, `picture
      ensures Settled() && picture.flat == old(picture.flat)
      ensures Resting() == old(Resting()) && Levels() <= old(Levels())
    {
      LevelIs(node);
      if |node.orders| == 0 {
        ghost var p := picture;
        LevelListed(picture, node);
        var i := SearchPrice(side, Prices(side), price);
        PriceFound(side, Prices(side), price, i);
        DropLevel(side, i, price, node, Closed(p, node, i));
        ClosedKeys(p, node, i, picture);
      }
    }

    /** Take an indexed order out, with its level if that empties it. */
    method Leave(node: PriceNode, order: Order, side: Side, id: nat, ghost r: OrderRec)
      requires Settled() && QueuedIn(picture.st, node, order) && r == picture.st.recs[order] && r.id == id
      requires node.side == r.side == side
      modifies this, node`quantity, node`orders
      ensures Settled() && Levels() <= old(Levels()) && Resting() == old(Resting()) - {order}
      ensures picture.flat == DeleteFromBook(id, old(picture.flat))
    {
      ghost var p := picture;
      OrderIs(order);
      Unlink(node, order, id, Removed(p, node, order));
      RemovedKeys(p, node, order, picture);
      Prune(side, node.price, node);
    }

    /** Take an order out of the book by its id; `look` is what a search of the flat lists finds. */
    method CancelOrder(id: nat, ghost look: Option<OrderRec>) returns (found: Option<Order>)
      requires Valid() && look == FindInBook(id, flat)
      modifies this, levels`quantity, levels`orders, resting`status
      ensures Valid() && levels <= old(levels) && (found.None? <==> look.None?)
      ensures found.None? ==> flat == old(flat) && resting == old(resting)
      ensures found.Some? ==>
                && found.value in old(resting) && resting == old(resting) - {found.value}
                && found.value.Rec() == look.value.(status := STATUS_CANCELLED)
                && flat == DeleteFromBook(id, old(flat))
    {
      Unfold();
      LookupIsFind(picture, id);
      if id !in orders {
        return None;
      }
      var loc := orders[id];
      var order := loc.element;
      OrderIs(order);
      Leave(loc.node, order, order.side, id, look.value);
      order.status := STATUS_CANCELLED;
      Publish(picture.flat);
      found := Some(order);
    }

    // ----- Queries -----

    method BestBid() returns (price: int)
      requires Valid()
      ensures price == BestPrice(flat.bids)
    {
      Unfold();
      BestOfSide(picture, Buy);
      price := if |bidPrices| == 0 then 0 else bidPrices[0];
    }

    method BestAsk() returns (price: int)
      requires Valid()
      ensures price == BestPrice(flat.asks)
    {
      Unfold();
      BestOfSide(picture, Sell);
      price := if |askPrices| == 0 then 0 else askPrices[0];
    }

    method HasOrder(id: nat) returns (has: bool)
      requires Valid()
      ensures has <==> FindInBook(id, flat).Some?
    {
      Unfold();
      LookupIsFind(picture, id);
      has := id in orders;
    }

    /** An id nobody bears is not in the index, and the other way round. */
    lemma LookupMissing(id: nat)
      requires Valid()
      ensures id !in orders <==> FindInBook(id, flat) == None
    {
      Unfold();
      LookupIsFind(picture, id);
    }

    /** Every level of a snapshot offers something. */
    lemma Offers(side: Side, maxDepth: nat)
      requires Valid()
      ensures
        var levels := Aggregate(flat.On(side), maxDepth);
        forall i :: 0 <= i < |levels| ==> levels[i].quantity > 0
    {
      Unfold();
      AggregatePositive(picture, side, maxDepth);
    }

    method SideSnapshot(side: Side, maxDepth: nat) returns (levels: seq<PriceLevel>)
      requires Settled()
      ensures levels == Aggregate(picture.flat.On(side), maxDepth)
    {
      AggregateOf(picture, side, maxDepth);
      levels := [];
      var i := 0;
      while i < |Prices(side)| && i < maxDepth
        invariant i <= |Prices(side)| && i <= maxDepth && |levels| == i
        invariant forall j :: 0 <= j < i ==> levels[j] == LevelAt(picture, side, j)
      {
        LevelReads(picture, side, i);
        var price := Prices(side)[i];
        var n := Nodes(side)[price];
        LevelIs(n);
        levels := levels + [PriceLevel(price, n.quantity, |n.orders|)];
        i := i + 1;
      }
    }

    /** The best `maxDepth` levels of either side, as the flat lists have them. */
    method Snapshot(maxDepth: nat) returns (bidLevels: seq<PriceLevel>, askLevels: seq<PriceLevel>)
      requires Valid()
      ensures bidLevels == Aggregate(flat.bids, maxDepth)
      ensures askLevels == Aggregate(flat.asks, maxDepth)
    {
      Unfold();
      bidLevels := SideSnapshot(Buy, maxDepth);
      askLevels := SideSnapshot(Sell, maxDepth);
    }
  }
}
