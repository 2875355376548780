/**
 The matching engine's single thread: it numbers commands, drives the order book in place, writes events and
 recycles orders and commands. Each command is proved to be one step of the machine in EngineSpec.dfy, and every
 order object is proved to be either in the book or in the pool.
 */
module Engine {
  import opened Types
  import opened FlatBook
  import opened PriceLevels
  import opened EngineSpec
  import opened BookStore
  import opened OrderBook

  // Command types; any other code is ignored.
  const CMD_NEW_ORDER := 1
  const CMD_CANCEL_ORDER := 2

  class Command {
    var typ: int
    var order: Order?
    var cancelId: nat
    var userId: nat
    var sequenceNo: nat

    constructor ()
      ensures Blank()
    {
      typ, order, cancelId, userId, sequenceNo := 0, null, 0, 0, 0;
    }

    ghost predicate Blank()
      reads this
    {
      typ == 0 && order == null && cancelId == 0 && userId == 0 && sequenceNo == 0
    }
  }

  /** Where commands come from and go when they are done with. */
  class CommandPool {
    var free: set<Command>

    constructor ()
      ensures Valid() && free == {}
    {
      free := {};
    }

    ghost predicate Valid()
      reads this, free
    {
      forall c {:trigger c.Blank()} :: c in free ==> c.Blank()
    }

    /** A zeroed command: one that was returned, or a new one. */
    method Get() returns (c: Command)
      requires Valid()
      modifies this
      ensures Valid() && c.Blank()
      ensures c.typ == 0 && c.order == null && c.cancelId == 0 && c.userId == 0 && c.sequenceNo == 0
      ensures (fresh(c) && free == old(free)) || (c in old(free) && free == old(free) - {c})
    {
      var reuse: bool := *;
      if reuse && free != {} {
        c :| c in free;
        assert c.Blank();
        free := free - {c};
      } else {
        c := new Command();
      }
    }

    /** Zero a command and take it back; no command may come back twice. */
    method Put(c: Command)
      requires Valid() && c !in free
      modifies this, c
      ensures Valid() && free == old(free) + {c}
    {
      c.typ, c.order, c.cancelId, c.userId, c.sequenceNo := 0, null, 0, 0, 0;
      free := free + {c};
      forall x | x in free && x != c
        ensures x.Blank()
      {
        assert old(x.Blank());
      }
    }
  }

  /** A zeroed order; a side has no zero value here, so the one it had stays. */
  function Zeroed(side: Side): OrderRec {
    OrderRec(0, 0, side, 0, 0, 0, 0, 0, 0)
  }

  ghost predicate BlankOrder(o: Order)
    reads o
  {
    o.Rec() == Zeroed(o.side)
  }

  /** Where orders come from, and where those go that are filled, cancelled or rejected. */
  class OrderPool {
    var free: set<Order>

    constructor ()
      ensures Valid() && free == {}
    {
      free := {};
    }

    ghost predicate Valid()
      reads this, free
    {
      forall o {:trigger BlankOrder(o)} :: o in free ==> BlankOrder(o)
    }

    /** A zeroed order: one that was returned, or a new one. */
    method Get() returns (o: Order)
      requires Valid()
      modifies this
      ensures Valid() && BlankOrder(o)
      ensures o.id == 0 && o.user == 0 && o.typ == 0 && o.price == 0 && o.quantity == 0 && o.remaining == 0
      ensures o.status == 0 && o.timestamp == 0
      ensures (fresh(o) && free == old(free)) || (o in old(free) && free == old(free) - {o})
    {
      var reuse: bool := *;
      if reuse && free != {} {
        o :| o in free;
        TakeOut(o);
      } else {
        o := new Order(Zeroed(Buy));
      }
    }

    method TakeOut(o: Order)
      requires Valid() && o in free
      modifies `free
      ensures Valid() && BlankOrder(o) && free == old(free) - {o}
    {
      assert BlankOrder(o);
      free := free - {o};
      forall x | x in free
        ensures BlankOrder(x)
      {
        assert old(BlankOrder(x));
      }
    }

    /** Zero an order and take it back; no order may come back twice. */
    method Put(o: Order)
      requires Valid() && o !in free
      modifies this, o
      ensures Valid() && free == old(free) + {o}
    {
      o.id, o.user, o.typ, o.price, o.quantity, o.remaining, o.status, o.timestamp := 0, 0, 0, 0, 0, 0, 0, 0;
      free := free + {o};
      forall x | x in free && x != o
        ensures BlankOrder(x)
      {
        assert old(BlankOrder(x));
      }
    }
  }

  /** A caller at work: it draws an order from the pool and overwrites it at will. */
  method DrawAndOverwrite(pool: OrderPool, o: Order, r: OrderRec)
    requires pool.Valid() && o in pool.free
    modifies pool, o
    ensures pool.Valid() && pool.free == old(pool.free) - {o}
  {
    pool.TakeOut(o);
    o.id, o.user, o.side, o.typ, o.price := r.id, r.user, r.side, r.typ, r.price;
    o.quantity, o.remaining, o.status, o.timestamp := r.quantity, r.remaining, r.status, r.timestamp;
  }

  /** Any number of callers at work. */
  method Meddle(pool: OrderPool) returns (ghost drawn: set<Order>)
    requires pool.Valid()
    modifies pool, pool.free
    ensures pool.Valid() && pool.free + drawn == old(pool.free) && pool.free !! drawn
  {
    drawn := {};
    var more: bool := *;
    while more && pool.free != {}
      invariant pool.Valid() && pool.free + drawn == old(pool.free) && pool.free !! drawn
      decreases |pool.free|
    {
      var o :| o in pool.free;
      var r: OrderRec := *;
      DrawAndOverwrite(pool, o, r);
      drawn := drawn + {o};
      more := *;
    }
  }

  /** The outbound queue as the engine sees it: every event ever pushed, in order. */
  class Outbound {
    var events: seq<RawEvent>

    constructor ()
      ensures events == []
    {
      events := [];
    }

    method PushOrder(kind: int, seqNo: nat, order: Order)
      modifies this
      ensures events == old(events) + [OrderEvent(kind, seqNo, order.Rec(), "")]
    {
      var slot := RawEvent(kind, 0, 0, 0, seqNo, 0, 0, 0, 0, 0, 0, 0, "");
      slot := slot.(orderStatus := order.status, orderType := order.typ, side := order.side.Code(),
                    orderId := order.id);
      slot := slot.(price := order.price, quantity := order.quantity, remaining := order.remaining,
                    timestamp := order.timestamp);
      events := events + [slot];
    }

    method PushOrderWithReason(kind: int, seqNo: nat, order: Order?, reason: string)
      modifies this
      ensures order == null ==> events == old(events) + [NoOrderEvent(kind, seqNo, reason)]
      ensures order != null ==> events == old(events) + [OrderEvent(kind, seqNo, order.Rec(), reason)]
    {
      var slot := RawEvent(kind, 0, 0, 0, seqNo, 0, 0, 0, 0, 0, 0, 0, "");
      if order != null {
        slot := slot.(orderStatus := order.status, orderType := order.typ, side := order.side.Code(),
                      orderId := order.id);
        slot := slot.(price := order.price, quantity := order.quantity, remaining := order.remaining,
                      timestamp := order.timestamp);
      }
      slot := slot.(reason := if |reason| > 31 then reason[..31] else reason);
      events := events + [slot];
    }

    method PushTrade(seqNo: nat, tradeId: nat, taker: Order, makerId: nat, makerStatus: int, price: int, qty: int)
      modifies this
      ensures
        events == old(events) +
                  [RawEvent(EVT_TRADE, makerStatus, taker.typ, taker.side.Code(), seqNo, taker.id, makerId, tradeId,
                            price, qty, taker.remaining, taker.timestamp, "")]
    {
      var slot := RawEvent(EVT_TRADE, makerStatus, 0, 0, seqNo, 0, makerId, tradeId, price, qty, 0, 0, "");
      slot := slot.(orderId := taker.id, side := taker.side.Code(), orderType := taker.typ,
                    remaining := taker.remaining, timestamp := taker.timestamp);
      events := events + [slot];
    }
  }

  // ----- Recycling the makers of a match -----

  /** The makers of the first `i` trades that rest no longer. */
  ghost function UsedUp(trades: seq<Trade>, after: set<Order>, i: nat): set<Order>
    requires i <= |trades|
  {
    if i == 0 then {}
    else UsedUp(trades, after, i - 1) + if trades[i - 1].maker in after then {} else {trades[i - 1].maker}
  }

  lemma {:induction false} UsedUpHas(trades: seq<Trade>, after: set<Order>, i: nat, k: nat)
    requires k < i <= |trades| && trades[k].maker !in after
    ensures trades[k].maker in UsedUp(trades, after, i)
  {
    if k < i - 1 {
      UsedUpHas(trades, after, i - 1, k);
    }
  }

  lemma {:induction false} UsedUpFrom(trades: seq<Trade>, after: set<Order>, i: nat, o: Order) returns (k: nat)
    requires i <= |trades| && o in UsedUp(trades, after, i)
    ensures k < i && trades[k].maker == o && o !in after
  {
    if trades[i - 1].maker == o && o !in after {
      k := i - 1;
    } else {
      k := UsedUpFrom(trades, after, i - 1, o);
    }
  }

  /** Taken together, the makers used up are exactly the orders that left the book. */
  lemma {:induction false} UsedUpAll(trades: seq<Trade>, fills: seq<Fill>, taker: Order, held: map<Order, OrderRec>,
                                     before: set<Order>, after: set<Order>, rem: int)
    requires Logged(trades, fills, taker, held, before, after, rem)
    ensures UsedUp(trades, after, |trades|) == before - after
  {
    forall o | o in before - after
      ensures o in UsedUp(trades, after, |trades|)
    {
      assert Traded(o, trades);
      var k :| 0 <= k < |trades| && trades[k].maker == o;
      UsedUpHas(trades, after, |trades|, k);
    }
    forall o | o in UsedUp(trades, after, |trades|)
      ensures o in before - after
    {
      var k := UsedUpFrom(trades, after, |trades|, o);
      assert TradeOk(k, trades, fills, taker, held, before, after, rem);
    }
  }

  /** What has been recycled so far came from the book. */
  lemma {:induction false} UsedUpWithin(trades: seq<Trade>, fills: seq<Fill>, taker: Order, held: map<Order, OrderRec>,
                                        before: set<Order>, after: set<Order>, rem: int, i: nat)
    requires Logged(trades, fills, taker, held, before, after, rem) && i <= |trades|
    ensures UsedUp(trades, after, i) <= before - after
  {
    if i > 0 {
      assert TradeOk(i - 1, trades, fills, taker, held, before, after, rem);
      UsedUpWithin(trades, fills, taker, held, before, after, rem, i - 1);
    }
  }

  /** Where the pooled orders are after one more trade. */
  lemma DrawnAlong(start: set<Order>, used: set<Order>, free: set<Order>, drawn: set<Order>, maker: Order, rests: bool,
                   free': set<Order>, more: set<Order>)
    requires free + drawn == start + used && free !! drawn && maker !in start + used
    requires free' + more == free + (if rests then {} else {maker}) && free' !! more && more <= free
    ensures free' + (drawn + more) == start + (used + if rests then {} else {maker}) && free' !! drawn + more
  {
  }

  /** Only what the makers hold matters. */
  lemma {:induction false} HeldByMakers(trades: seq<Trade>, fills: seq<Fill>, taker: Order, held: map<Order, OrderRec>,
                                        before: set<Order>, after: set<Order>, rem: int, makers: map<Order, OrderRec>)
    requires Logged(trades, fills, taker, held, before, after, rem) && OrdersHold(held)
    requires makers == map o | o in held && o in before :: held[o]
    ensures Logged(trades, fills, taker, makers, before, after, rem) && OrdersHold(makers)
  {
    forall i | 0 <= i < |trades|
      ensures TradeOk(i, trades, fills, taker, makers, before, after, rem)
    {
      assert TradeOk(i, trades, fills, taker, held, before, after, rem);
    }
    forall o | o in makers
      ensures OrderHolds(o, makers)
    {
      assert OrderHolds(o, held);
    }
  }

  lemma UsedUpNext(trades: seq<Trade>, after: set<Order>, i: nat, held: map<Order, OrderRec>)
    requires i < |trades|
    ensures
      held - UsedUp(trades, after, i + 1) ==
      held - UsedUp(trades, after, i) - if trades[i].maker in after then {} else {trades[i].maker}
  {
  }

  /** The maker of the next trade has not been recycled yet. */
  lemma {:induction false} NotYetRecycled(trades: seq<Trade>, fills: seq<Fill>, taker: Order, held: map<Order,
                                          OrderRec>,
                                          before: set<Order>, after: set<Order>, rem: int, i: nat)
    requires Logged(trades, fills, taker, held, before, after, rem) && i < |trades|
    ensures TradeOk(i, trades, fills, taker, held, before, after, rem)
    ensures trades[i].maker !in UsedUp(trades, after, i)
  {
    assert TradeOk(i, trades, fills, taker, held, before, after, rem);
    if trades[i].maker in UsedUp(trades, after, i) {
      var k := UsedUpFrom(trades, after, i, trades[i].maker);
    }
  }

  ghost predicate FilledMarked(fills: seq<Fill>) {
    forall i :: 0 <= i < |fills| ==> (fills[i].maker.status == STATUS_FILLED <==> fills[i].maker.remaining == 0)
  }

  lemma {:induction false} SweepMarksFilled(t: OrderRec, rem: int, b: seq<OrderRec>)
    ensures FilledMarked(Sweep(t, rem, b).fills)
    decreases |b|
  {
    var r := Sweep(t, rem, b);
    if |r.fills| > 1 {
      var rest := Sweep(t, rem - b[0].remaining, b[1..]).fills;
      SweepMarksFilled(t, rem - b[0].remaining, b[1..]);
      forall i | 0 < i < |r.fills|
        ensures r.fills[i] == rest[i - 1]
      {
      }
    }
  }

  /** A sweep brings no new ids into the book. */
  lemma {:induction false} SweepFindsNoMore(t: OrderRec, rem: int, b: seq<OrderRec>, id: nat)
    requires Find(id, b) == None
    ensures Find(id, Sweep(t, rem, b).book) == None
    decreases |b|
  {
    if rem > 0 && b != [] && Reaches(t, b[0].price) && rem >= b[0].remaining {
      SweepFindsNoMore(t, rem - b[0].remaining, b[1..], id);
    }
  }

  lemma {:induction false} MatchFindsNoMore(t: OrderRec, book: Book, id: nat)
    requires FindInBook(id, book) == None
    ensures FindInBook(id, book.With(t.side.Opposite(), Sweep(t, t.remaining, book.On(t.side.Opposite())).book)) == None
  {
    SweepFindsNoMore(t, t.remaining, book.On(t.side.Opposite()), id);
  }

  /** One more trade record written. */
  lemma {:induction false} TradesOnward(seqNo: nat, tradeSeq: nat, t: OrderRec, fills: seq<Fill>, i: nat,
                                        log: seq<RawEvent>, log1: seq<RawEvent>, all: seq<RawEvent>)
    requires i < |fills| && log + TradeEvents(seqNo, tradeSeq, t, fills[i..]) == all
    requires log1 == log + [TradeEvent(seqNo, tradeSeq + 1, t, fills[i])]
    ensures log1 + TradeEvents(seqNo, tradeSeq + 1, t, fills[i + 1..]) == all
  {
    assert fills[i..][1..] == fills[i + 1..];
  }

  class Engine {
    const book: OrderBook
    const outbound: Outbound
    const orderPool: OrderPool
    const commandPool: CommandPool
    var localSeq: nat
    var tradeSeq: nat

    constructor ()
      ensures Valid() && Now() == Start && outbound.events == [] && book.orders == map[]
      ensures book.resting == {} && orderPool.free == {} && commandPool.free == {} && book.levels == {}
      ensures fresh(book) && fresh(outbound) && fresh(orderPool) && fresh(commandPool)
    {
      book := new OrderBook();
      outbound := new Outbound();
      orderPool := new OrderPool();
      commandPool := new CommandPool();
      localSeq, tradeSeq := 0, 0;
    }

    /** Book and pools are in good order, and no resting order is in the pool. */
    ghost predicate Valid()
      reads book, book.levels, book.resting, orderPool, orderPool.free, commandPool, commandPool.free
    {
      book.Valid() && orderPool.Valid() && commandPool.Valid() && book.resting !! orderPool.free
    }

    /** The engine's state as a value. */
    ghost function Now(): State
      reads this, book
    {
      State(book.flat, localSeq, tradeSeq)
    }

    /** The order objects the engine is responsible for. */
    ghost function Owned(): set<Order>
      reads book, orderPool
    {
      book.resting + orderPool.free
    }

    method WouldCross(order: Order) returns (crosses: bool)
      requires Valid()
      ensures crosses <==> EngineSpec.WouldCross(book.flat, order.Rec())
    {
      if order.side.Buy? {
        var best := book.BestAsk();
        crosses := best > 0 && order.price >= best;
      } else {
        var best := book.BestBid();
        crosses := best > 0 && order.price <= best;
      }
    }

    /**
     Whether the first 4096 levels of the other side, as far as a LIMIT order's price reaches, can fill the order `t`;
     only the FOK handler asks, and a FOK order reaches everything.
     */
    method CanFillCompletely(order: Order, ghost t: OrderRec, ghost other: seq<OrderRec>) returns (can: bool)
      requires Valid() && t == order.Rec() && t.remaining > 0 && other == book.flat.On(t.side.Opposite())
      ensures can <==> DepthQty(other[..ReachLen(t, other)], SNAPSHOT_DEPTH) >= t.remaining
    {
      var bidLevels, askLevels := book.Snapshot(4096);
      var levels := if order.side.Buy? then askLevels else bidLevels;
      assert levels == Aggregate(other, 4096);
      book.Offers(t.side.Opposite(), 4096);
      ReachedDepth(t, other, 4096);
      can := CanFillFrom(levels, order, t);
    }

    /** The scan itself, over levels that all offer something. */
    method CanFillFrom(levels: seq<PriceLevel>, order: Order, ghost t: OrderRec) returns (can: bool)
      requires t == order.Rec() && t.remaining > 0
      requires forall i :: 0 <= i < |levels| ==> levels[i].quantity > 0
      ensures can <==> ReachedQty(t, levels) >= t.remaining
    {
      var remaining := order.remaining;
      var i := 0;
      while i < |levels|
        invariant i <= |levels| && remaining > 0
        invariant ReachedQty(t, levels) - ReachedQty(t, levels[i..]) == t.remaining - remaining
      {
        var level := levels[i];
        if order.typ == LIMIT && (if order.side.Buy? then level.price > order.price else level.price < order.price) {
          return false;
        }
        assert levels[i..][1..] == levels[i + 1..];
        if level.quantity >= remaining {
          ReachedNonNegative(t, levels[i + 1..]);
          return true;
        }
        remaining := remaining - level.quantity;
        i := i + 1;
      }
      can := remaining == 0;
    }

    /** Number and emit one trade, and recycle its maker if the trade used it up. */
    method EmitTrade(tr: Trade, ghost m: OrderRec)
      requires orderPool.Valid() && tr.maker !in orderPool.free
      requires tr.maker.Rec() == m && tr.taker != tr.maker && tr.price == m.price
      modifies `tradeSeq, outbound, orderPool, (if tr.maker.status == STATUS_FILLED then {tr.maker} else {})
      ensures
        outbound.events ==
        old(outbound.events) + [TradeEvent(localSeq, tradeSeq, tr.taker.Rec(), Fill(m, tr.quantity))]
      ensures tradeSeq == old(tradeSeq) + 1 && orderPool.Valid()
      ensures orderPool.free == old(orderPool.free) + if m.status == STATUS_FILLED then {tr.maker} else {}
    {
      tradeSeq := tradeSeq + 1;
      outbound.PushTrade(localSeq, tradeSeq, tr.taker, tr.maker.id, tr.maker.status, tr.price, tr.quantity);
      if tr.maker.status == STATUS_FILLED {
        orderPool.Put(tr.maker);
      }
    }

    /** The next trade of a match; `held` is what the makers not yet recycled hold. */
    method EmitNext(tr: Trade, ghost m: OrderRec, ghost held: map<Order, OrderRec>)
      requires orderPool.Valid() && tr.maker !in orderPool.free && OrdersHold(held) && tr.taker !in held
      requires tr.maker in held && held[tr.maker] == m && tr.price == m.price
      modifies `tradeSeq, outbound, orderPool, (if m.status == STATUS_FILLED then {tr.maker} else {})
      ensures
        outbound.events ==
        old(outbound.events) + [TradeEvent(localSeq, tradeSeq, old(tr.taker.Rec()), Fill(m, tr.quantity))]
      ensures tradeSeq == old(tradeSeq) + 1 && orderPool.Valid() && tr.taker.Rec() == old(tr.taker.Rec())
      ensures orderPool.free == old(orderPool.free) + if m.status == STATUS_FILLED then {tr.maker} else {}
      ensures OrdersHold(held - if m.status == STATUS_FILLED then {tr.maker} else {})
    {
      assert OrderHolds(tr.maker, held);
      OrdersFewer(held, tr.maker);
      assert held - {} == held;
      EmitTrade(tr, m);
    }

    /** One trade, with callers at work before it if they share the pool. */
    method EmitRound(tr: Trade, shared: bool, ghost m: OrderRec, ghost held: map<Order, OrderRec>)
      returns (ghost drawn: set<Order>)
      requires orderPool.Valid() && OrdersHold(held) && held.Keys !! orderPool.free
      requires tr.taker !in held && tr.taker !in orderPool.free
      requires tr.maker in held && held[tr.maker] == m && tr.price == m.price
      modifies `tradeSeq, outbound, orderPool, (if m.status == STATUS_FILLED then {tr.maker} else {})
      modifies if shared then orderPool.free else {}
      ensures
        outbound.events ==
        old(outbound.events) + [TradeEvent(localSeq, tradeSeq, old(tr.taker.Rec()), Fill(m, tr.quantity))]
      ensures tradeSeq == old(tradeSeq) + 1 && orderPool.Valid() && tr.taker.Rec() == old(tr.taker.Rec())
      ensures
        orderPool.free + drawn == old(orderPool.free) + if m.status == STATUS_FILLED then {tr.maker} else {}
      ensures orderPool.free !! drawn && drawn <= old(orderPool.free) && (!shared ==> drawn == {})
      ensures OrdersHold(held - if m.status == STATUS_FILLED then {tr.maker} else {})
    {
      drawn := {};
      if shared {
        drawn := Meddle(orderPool);
      }
      EmitNext(tr, m, held);
    }

    /** The loop body below: the `i`-th trade, and who has the pooled orders afterwards; `start` were pooled before. */
    method EmitNth(trades: seq<Trade>, shared: bool, i: nat, ghost taker: Order, ghost fills: seq<Fill>,
                   ghost held: map<Order, OrderRec>, ghost before: set<Order>, ghost after: set<Order>,
                   ghost start: set<Order>, ghost drawn: set<Order>)
      returns (ghost drawn': set<Order>)
      requires Logged(trades, fills, taker, held, before, after, taker.remaining) && i < |trades|
      requires taker !in before && taker !in start && held.Keys <= before && before !! start && FilledMarked(fills)
      requires orderPool.Valid() && OrdersHold(held - UsedUp(trades, after, i))
      requires orderPool.free + drawn == start + UsedUp(trades, after, i) && orderPool.free !! drawn
      modifies `tradeSeq, outbound, orderPool, before - after, (if shared then orderPool.free else {})
      ensures orderPool.Valid() && OrdersHold(held - UsedUp(trades, after, i + 1))
      ensures orderPool.free + drawn' == start + UsedUp(trades, after, i + 1) && orderPool.free !! drawn'
      ensures !shared ==> drawn' == drawn
      ensures tradeSeq == old(tradeSeq) + 1 && taker.Rec() == old(taker.Rec())
      ensures outbound.events == old(outbound.events) + [TradeEvent(localSeq, tradeSeq, taker.Rec(), fills[i])]
    {
      NotYetRecycled(trades, fills, taker, held, before, after, taker.remaining, i);
      UsedUpWithin(trades, fills, taker, held, before, after, taker.remaining, i);
      UsedUpNext(trades, after, i, held);
      ghost var free, used := orderPool.free, UsedUp(trades, after, i);
      ghost var more := EmitRound(trades[i], shared, fills[i].maker, held - used);
      DrawnAlong(start, used, free, drawn, trades[i].maker, trades[i].maker in after, orderPool.free, more);
      drawn' := drawn + more;
    }

    /**
     Number and emit the trades of a match, and recycle the makers it used up. If the pool is shared, callers may
     draw and overwrite pooled orders, the makers just recycled among them, between any two trades: the events are
     the same, and `drawn` is what they have taken.
     */
    method EmitTrades(trades: seq<Trade>, shared: bool, ghost taker: Order, ghost fills: seq<Fill>,
                      ghost held: map<Order, OrderRec>, ghost before: set<Order>, ghost after: set<Order>)
      returns (ghost drawn: set<Order>)
      requires Logged(trades, fills, taker, held, before, after, taker.remaining) && OrdersHold(held)
      requires taker !in before && taker !in orderPool.free && held.Keys <= before
      requires before !! orderPool.free && FilledMarked(fills) && orderPool.Valid()
      modifies `tradeSeq, outbound, orderPool, before - after, (if shared then orderPool.free else {})
      ensures outbound.events == old(outbound.events) + TradeEvents(localSeq, old(tradeSeq), taker.Rec(), fills)
      ensures tradeSeq == old(tradeSeq) + |fills| && orderPool.Valid()
      ensures orderPool.free + drawn == old(orderPool.free) + (before - after) && orderPool.free !! drawn
      ensures !shared ==> drawn == {}
    {
      ghost var t, all := taker.Rec(), TradeEvents(localSeq, tradeSeq, taker.Rec(), fills);
      var i := 0;
      drawn := {};
      assert held - {} == held;
      while i < |trades|
        invariant i <= |trades| && tradeSeq == old(tradeSeq) + i && orderPool.Valid()
        invariant outbound.events + TradeEvents(localSeq, tradeSeq, t, fills[i..]) == old(outbound.events) + all
        invariant orderPool.free + drawn == old(orderPool.free) + UsedUp(trades, after, i) && orderPool.free !! drawn
        invariant OrdersHold(held - UsedUp(trades, after, i))
        invariant taker.Rec() == t && (!shared ==> drawn == {})
      {
        UsedUpWithin(trades, fills, taker, held, before, after, taker.remaining, i);
        ghost var log := outbound.events;
        drawn := EmitNth(trades, shared, i, taker, fills, held, before, after, old(orderPool.free), drawn);
        TradesOnward(localSeq, tradeSeq - 1, t, fills, i, log, outbound.events, old(outbound.events) + all);
        i := i + 1;
      }
      UsedUpAll(trades, fills, taker, held, before, after, taker.remaining);
    }

    /** Emit the trades of a match that turned the resting orders `before` into those of the book. */
    method EmitMatch(trades: seq<Trade>, shared: bool, order: Order, ghost fills: seq<Fill>,
                     ghost held: map<Order, OrderRec>, ghost before: set<Order>)
      returns (ghost drawn: set<Order>)
      requires Valid() && order !in before && order !in orderPool.free && before !! orderPool.free
      requires Logged(trades, fills, order, held, before, book.resting, order.remaining)
      requires OrdersHold(held) && FilledMarked(fills)
      modifies `tradeSeq, outbound, orderPool, before - book.resting, (if shared then orderPool.free else {})
      ensures Valid() && orderPool.free + drawn == old(orderPool.free) + (before - book.resting)
      ensures orderPool.free !! drawn && (!shared ==> drawn == {}) && order.Rec() == old(order.Rec())
      ensures tradeSeq == old(tradeSeq) + |fills|
      ensures outbound.events == old(outbound.events) + TradeEvents(localSeq, old(tradeSeq), order.Rec(), fills)
    {
      ghost var makers := map o | o in held && o in before :: held[o];
      HeldByMakers(trades, fills, order, held, before, book.resting, order.remaining, makers);
      drawn := EmitTrades(trades, shared, order, fills, makers, before, book.resting);
    }

    // ----- The ways an order can end up -----

    /** Announce an order that will not rest, and recycle it. */
    method Retire(kind: int, order: Order)
      requires Valid() && order !in Owned()
      modifies outbound, orderPool, order
      ensures Valid() && orderPool.free == old(orderPool.free) + {order}
      ensures outbound.events == old(outbound.events) + [OrderEvent(kind, localSeq, old(order.Rec()), "")]
    {
      outbound.PushOrder(kind, localSeq, order);
      orderPool.Put(order);
    }

    method RejectOrder(order: Order, reason: string)
      requires Valid() && order !in Owned()
      modifies outbound, orderPool, order
      ensures Valid() && orderPool.free == old(orderPool.free) + {order}
      ensures outbound.events == old(outbound.events) + Reject(old(Now()), old(order.Rec()), reason).events
    {
      order.status := STATUS_REJECTED;
      outbound.PushOrderWithReason(EVT_REJECTED, localSeq, order, reason);
      orderPool.Put(order);
    }

    method CancelResidual(order: Order)
      requires Valid() && order !in Owned()
      modifies outbound, orderPool, order
      ensures Valid() && orderPool.free == old(orderPool.free) + {order}
      ensures
        outbound.events ==
        old(outbound.events) +
        [OrderEvent(EVT_CANCELLED, localSeq, old(order.Rec()).(status := STATUS_CANCELLED), "")]
    {
      order.status := STATUS_CANCELLED;
      Retire(EVT_CANCELLED, order);
    }

    /** Rest an order; `o` is the order as handed in. */
    method RestOrder(order: Order, ghost o: OrderRec, ghost out: Outcome)
      requires Valid() && order !in Owned() && order.remaining > 0 && order.id !in book.orders
      requires o == order.Rec() && out == Rest(Now(), o)
      modifies book, outbound, order`status, book.levels`quantity, book.levels`orders
      ensures fresh(book.levels - old(book.levels))
      ensures Valid() && book.resting == old(book.resting) + {order} && book.flat == out.state.book
      ensures outbound.events == old(outbound.events) + out.events
    {
      book.AddOrder(order, o.(status := STATUS_OPEN));
      outbound.PushOrder(EVT_ACCEPTED, localSeq, order);
    }

    /**
     Sweep the other side and emit the trades; `t` is the taker and `r` its sweep. Sharing the pool makes no
     difference to book, counters, taker and events.
     */
    method MatchAndEmit(order: Order, shared: bool, ghost t: OrderRec, ghost side: Side, ghost r: Swept)
      returns (ghost drawn: set<Order>)
      requires Valid() && order !in Owned()
      requires t == order.Rec() && side == t.side.Opposite() && r == Sweep(t, t.remaining, book.flat.On(side))
      modifies `tradeSeq, book, outbound, orderPool, order`remaining, order`status
      modifies book.levels`quantity, book.levels`orders, book.resting, (if shared then orderPool.free else {})
      ensures Valid() && Owned() + drawn == old(Owned()) && Owned() !! drawn && (!shared ==> drawn == {})
      ensures book.levels <= old(book.levels)
      ensures order.Rec() == AfterMatch(t, r.remaining)
      ensures book.flat == old(book.flat).With(side, r.book) && tradeSeq == old(tradeSeq) + |r.fills|
      ensures outbound.events == old(outbound.events) + TradeEvents(localSeq, old(tradeSeq), order.Rec(), r.fills)
    {
      ghost var before := book.resting;
      SweepMarksFilled(t, t.remaining, book.flat.On(side));
      var trades;
      ghost var held;
      trades, held := book.Match(order, t, side, r);
      drawn := EmitMatch(trades, shared, order, r.fills, held, before);
    }

    // ----- New orders -----

    method HandlePostOnly(order: Order, ghost t: OrderRec, ghost out: Outcome)
      requires Valid() && order !in Owned() && order.remaining > 0 && order.id !in book.orders
      requires t == order.Rec() && t.typ == POST_ONLY && out == NewOrderStep(Now(), t)
      modifies book, outbound, orderPool, order, book.levels`quantity, book.levels`orders
      ensures fresh(book.levels - old(book.levels))
      ensures Valid() && Owned() == old(Owned()) + {order} && Now() == out.state
      ensures outbound.events == old(outbound.events) + out.events
    {
      var crosses := WouldCross(order);
      if crosses {
        RejectOrder(order, "post-only order would immediately match");
      } else {
        RestOrder(order, t, out);
      }
    }

    /** A FOK order that the check has let through. */
    method FillFok(order: Order, ghost t: OrderRec, ghost s: State, ghost out: Outcome)
      requires Valid() && order !in Owned() && s == Now()
      requires t == order.Rec() && t.typ == FOK && CanFill(s.book, t) && out == NewOrderStep(s, t)
      modifies `tradeSeq, book, outbound, orderPool, order, book.levels`quantity, book.levels`orders, book.resting
      ensures book.levels <= old(book.levels)
      ensures Valid() && Owned() == old(Owned()) + {order} && Now() == out.state
      ensures outbound.events == old(outbound.events) + out.events
    {
      ghost var log, side := outbound.events, t.side.Opposite();
      ghost var r := Sweep(t, t.remaining, s.book.On(side));
      ghost var _ := MatchAndEmit(order, false, t, side, r);
      MatchedThen(s, t, r, Now(), order.Rec(), log, outbound.events, out);
      Retire(EVT_FILLED, order);
    }

    method HandleFok(order: Order, ghost t: OrderRec, ghost out: Outcome)
      requires Valid() && order !in Owned() && order.remaining > 0
      requires t == order.Rec() && t.typ == FOK && out == NewOrderStep(Now(), t)
      modifies `tradeSeq, book, outbound, orderPool, order, book.levels`quantity, book.levels`orders, book.resting
      ensures book.levels <= old(book.levels)
      ensures Valid() && Owned() == old(Owned()) + {order} && Now() == out.state
      ensures outbound.events == old(outbound.events) + out.events
    {
      ghost var other := book.flat.On(t.side.Opposite());
      var can := CanFillCompletely(order, t, other);
      ReachesAll(t, other);
      assert other[..|other|] == other;
      if can {
        FillFok(order, t, Now(), out);
      } else {
        RejectOrder(order, "insufficient liquidity for FOK");
      }
    }

    method HandleLimit(order: Order, ghost t: OrderRec, ghost s: State, ghost out: Outcome)
      requires Valid() && order !in Owned() && order.id !in book.orders && s == Now()
      requires t == order.Rec() && t.typ == LIMIT && out == NewOrderStep(s, t)
      modifies `tradeSeq, book, outbound, orderPool, order, book.levels`quantity, book.levels`orders, book.resting
      ensures fresh(book.levels - old(book.levels))
      ensures Valid() && Owned() == old(Owned()) + {order} && Now() == out.state
      ensures outbound.events == old(outbound.events) + out.events
    {
      ghost var log, side := outbound.events, t.side.Opposite();
      ghost var r := Sweep(t, t.remaining, s.book.On(side));
      book.LookupMissing(order.id);
      ghost var _ := MatchAndEmit(order, false, t, side, r);
      ghost var taker, s1 := order.Rec(), Now();
      MatchedThen(s, t, r, s1, taker, log, outbound.events, out);
      if order.remaining > 0 {
        MatchFindsNoMore(t, s.book, t.id);
        book.LookupMissing(order.id);
        RestOrder(order, taker, Settle(s1, taker));
      } else {
        Retire(EVT_FILLED, order);
      }
    }

    /** IOC and MARKET orders: what cannot be filled at once is cancelled. */
    method HandleImmediate(order: Order, ghost t: OrderRec, ghost s: State, ghost out: Outcome)
      requires Valid() && order !in Owned() && s == Now()
      requires t == order.Rec() && t.typ in {IOC, MARKET} && out == NewOrderStep(s, t)
      modifies `tradeSeq, book, outbound, orderPool, order, book.levels`quantity, book.levels`orders, book.resting
      ensures book.levels <= old(book.levels)
      ensures Valid() && Owned() == old(Owned()) + {order} && Now() == out.state
      ensures outbound.events == old(outbound.events) + out.events
    {
      ghost var log, side := outbound.events, t.side.Opposite();
      ghost var r := Sweep(t, t.remaining, s.book.On(side));
      ghost var _ := MatchAndEmit(order, false, t, side, r);
      MatchedThen(s, t, r, Now(), order.Rec(), log, outbound.events, out);
      if order.remaining > 0 {
        CancelResidual(order);
      } else {
        Retire(EVT_FILLED, order);
      }
    }

    /** Dispatch on the order type. */
    method Dispatch(order: Order, ghost t: OrderRec, ghost out: Outcome)
      requires Valid() && order !in Owned() && order.remaining > 0 && order.id !in book.orders
      requires t == order.Rec() && out == NewOrderStep(Now(), t)
      modifies `tradeSeq, book, outbound, orderPool, order, book.levels`quantity, book.levels`orders, book.resting
      ensures fresh(book.levels - old(book.levels))
      ensures Valid() && Owned() == old(Owned()) + {order} && Now() == out.state
      ensures outbound.events == old(outbound.events) + out.events
    {
      if order.typ == POST_ONLY {
        HandlePostOnly(order, t, out);
      } else if order.typ == FOK {
        HandleFok(order, t, out);
      } else if order.typ == LIMIT {
        HandleLimit(order, t, Now(), out);
      } else if order.typ == IOC || order.typ == MARKET {
        HandleImmediate(order, t, Now(), out);
      } else {
        RejectOrder(order, "unknown order type");
      }
    }

    /** `t` is the order as the engine takes it up, stamped with the time if it had none. */
    method HandleNewOrder(order: Order, now: int, ghost t: OrderRec, ghost out: Outcome)
      requires Valid() && order !in Owned() && order.remaining > 0 && order.id !in book.orders
      requires t == Stamped(order.Rec(), now) && out == NewOrderStep(Now(), t)
      modifies `tradeSeq, book, outbound, orderPool, order, book.levels`quantity, book.levels`orders, book.resting
      ensures fresh(book.levels - old(book.levels))
      ensures Valid() && Owned() == old(Owned()) + {order} && Now() == out.state
      ensures outbound.events == old(outbound.events) + out.events
    {
      Stamp(order, now, t);
      Dispatch(order, t, out);
    }

    method Stamp(order: Order, now: int, ghost t: OrderRec)
      requires t == Stamped(order.Rec(), now)
      modifies order`timestamp
      ensures order.Rec() == t
    {
      if order.timestamp == 0 {
        order.timestamp := now;
      }
    }

    // ----- Cancels -----

    /** `look` is what a search of the book finds under the id. */
    method HandleCancelOrder(id: nat, ghost look: Option<OrderRec>, ghost out: Outcome)
      requires Valid() && look == FindInBook(id, book.flat) && out == CancelStep(Now(), id)
      modifies book, outbound, orderPool, book.levels`quantity, book.levels`orders, book.resting
      ensures book.levels <= old(book.levels)
      ensures Valid() && Owned() == old(Owned()) && Now() == out.state
      ensures outbound.events == old(outbound.events) + out.events
    {
      var found := book.CancelOrder(id, look);
      if found.None? {
        outbound.PushOrderWithReason(EVT_REJECTED, localSeq, null, "cancel rejected: order not found");
      } else {
        Retire(EVT_CANCELLED, found.value);
      }
    }

    // ----- Commands -----

    /** The order object a command comes with, if it is a new order. */
    static ghost function Brings(cmd: Command): set<Order>
      reads cmd`typ, cmd`order
    {
      if cmd.typ == CMD_NEW_ORDER && cmd.order != null then {cmd.order} else {}
    }

    /** What a command asks for, as a value. */
    static ghost function Recorded(cmd: Command, now: int): CommandRec
      reads cmd`typ, cmd`order, cmd`cancelId, cmd`userId, Brings(cmd)
    {
      if cmd.typ == CMD_NEW_ORDER && cmd.order != null then NewOrder(cmd.order.Rec(), now)
      else if cmd.typ == CMD_CANCEL_ORDER then CancelOrder(cmd.cancelId, cmd.userId)
      else OtherCommand
    }

    /** A new order comes with an order object of its own, something to fill, and an id that is not resting. */
    ghost predicate Accepts(cmd: Command)
      reads book, orderPool, commandPool, cmd`typ, cmd`order, cmd.order
    {
      && cmd !in commandPool.free
      && (cmd.typ == CMD_NEW_ORDER ==>
            cmd.order != null && cmd.order !in Owned() && cmd.order.remaining > 0 && cmd.order.id !in book.orders)
    }

    method Handle(cmd: Command, now: int, ghost c: CommandRec, ghost out: Outcome, ghost mine: set<Order>)
      requires Valid() && Accepts(cmd) && c == Recorded(cmd, now) && out == Handled(Now(), c) && mine == Brings(cmd)
      modifies `tradeSeq, book, outbound, orderPool, mine
      modifies book.levels`quantity, book.levels`orders, book.resting
      ensures fresh(book.levels - old(book.levels))
      ensures Valid() && Owned() == old(Owned()) + mine
      ensures Now() == out.state && outbound.events == old(outbound.events) + out.events
    {
      if cmd.typ == CMD_NEW_ORDER {
        HandleNewOrder(cmd.order, now, Stamped(c.order, now), out);
      } else if cmd.typ == CMD_CANCEL_ORDER {
        HandleCancelOrder(cmd.cancelId, FindInBook(cmd.cancelId, book.flat), out);
      }
    }

    /** Stamp the next sequence number onto a command. */
    method Number(cmd: Command, now: int, ghost c: CommandRec, ghost mine: set<Order>)
      requires Valid() && Accepts(cmd) && c == Recorded(cmd, now) && mine == Brings(cmd)
      modifies `localSeq, cmd`sequenceNo
      ensures Valid() && Accepts(cmd) && c == Recorded(cmd, now) && mine == Brings(cmd)
      ensures localSeq == old(localSeq) + 1 && cmd.sequenceNo == localSeq && Owned() == old(Owned())
    {
      localSeq := localSeq + 1;
      cmd.sequenceNo := localSeq;
    }

    method Recycle(cmd: Command)
      requires Valid() && cmd !in commandPool.free
      modifies commandPool, cmd
      ensures Valid() && commandPool.free == old(commandPool.free) + {cmd}
    {
      cmd.order := null;
      commandPool.Put(cmd);
    }

    method Execute(cmd: Command, now: int, ghost c: CommandRec, ghost out: Outcome, ghost mine: set<Order>)
      requires Valid() && Accepts(cmd) && c == Recorded(cmd, now) && out == Step(Now(), c) && mine == Brings(cmd)
      modifies this, book, outbound, orderPool, cmd`sequenceNo, mine
      modifies book.levels`quantity, book.levels`orders, book.resting
      ensures fresh(book.levels - old(book.levels)) && Valid() && Owned() == old(Owned()) + mine
      ensures Now() == out.state && outbound.events == old(outbound.events) + out.events
    {
      ghost var s := Now();
      Number(cmd, now, c, mine);
      StepHandles(s, c, out);
      assert Now() == s.(seqNo := s.seqNo + 1);
      Handle(cmd, now, c, out, mine);
    }

    /** Process one command: exactly one step of the specification; `c` is what the command asked for. */
    method Process(cmd: Command, now: int, ghost c: CommandRec, ghost out: Outcome, ghost mine: set<Order>)
      requires Valid() && Accepts(cmd) && c == Recorded(cmd, now) && out == Step(Now(), c) && mine == Brings(cmd)
      modifies this, book, outbound, orderPool, commandPool, cmd, mine
      modifies book.levels`quantity, book.levels`orders, book.resting
      ensures fresh(book.levels - old(book.levels))
      ensures Valid() && Owned() == old(Owned()) + mine && commandPool.free == old(commandPool.free) + {cmd}
      ensures Now() == out.state && outbound.events == old(outbound.events) + out.events
    {
      Execute(cmd, now, c, out, mine);
      Recycle(cmd);
    }
  }

  /** A matched order's step is the match followed by the settling of the taker. */
  lemma {:induction false} MatchedThen(s: State, t: OrderRec, r: Swept, s1: State, taker: OrderRec,
                                       log: seq<RawEvent>, log1: seq<RawEvent>, out: Outcome)
    requires t.typ in {LIMIT, IOC, MARKET} || (t.typ == FOK && CanFill(s.book, t))
    requires r == Sweep(t, t.remaining, s.book.On(t.side.Opposite())) && taker == AfterMatch(t, r.remaining)
    requires s1 == State(s.book.With(t.side.Opposite(), r.book), s.seqNo, s.tradeSeq + |r.fills|)
    requires log1 == log + TradeEvents(s.seqNo, s.tradeSeq, taker, r.fills) && out == NewOrderStep(s, t)
    ensures out.state == Settle(s1, taker).state
    ensures log + out.events == log1 + Settle(s1, taker).events
  {
    assert out == MatchAndSettle(s, t);
  }
}
