/** No quantity appears or disappears: totals per side over a run, and the trade balance of every single order. */
module Conservation {
  import opened Types
  import opened FlatBook
  import opened EngineSpec
  import opened BookLaws
  import opened Grammar
  import OrderLaws

  // ----- Totals per side -----

  function Submitted(cs: seq<CommandRec>, side: Side): int {
    if cs == [] then 0
    else
      var c := cs[|cs| - 1];
      Submitted(cs[..|cs| - 1], side) + if c.NewOrder? && c.order.side == side then c.order.remaining else 0
  }

  /** What one record takes out of a side for good: every trade takes from both sides, other exits from their own. */
  function Exit(e: RawEvent, side: Side): int {
    if e.evtType == EVT_TRADE then e.quantity
    else if e.evtType in {EVT_CANCELLED, EVT_REJECTED} && e.side == side.Code() then e.remaining
    else 0
  }

  function Exits(es: seq<RawEvent>, side: Side): int {
    if es == [] then 0 else Exit(es[0], side) + Exits(es[1..], side)
  }

  lemma {:induction false} ExitsAppend(a: seq<RawEvent>, b: seq<RawEvent>, side: Side)
    ensures Exits(a + b, side) == Exits(a, side) + Exits(b, side)
  {
    if a == [] {
      assert a + b == b;
    } else {
      assert (a + b)[1..] == a[1..] + b;
      ExitsAppend(a[1..], b, side);
    }
  }

  lemma {:induction false} TradesExit(seqNo: nat, tradeSeq: nat, taker: OrderRec, fills: seq<Fill>, side: Side)
    ensures Exits(TradeEvents(seqNo, tradeSeq, taker, fills), side) == FilledQty(fills)
    decreases |fills|
  {
    if fills != [] {
      TradesExit(seqNo, tradeSeq + 1, taker, fills[1..], side);
    }
  }

  lemma {:induction false} InsertSum(o: OrderRec, b: seq<OrderRec>)
    ensures Sum(Insert(o, b)) == Sum(b) + o.remaining
  {
    if Rank(o, b) > 0 {
      InsertSum(o, b[1..]);
    } else {
      assert ([o] + b)[1..] == b;
    }
  }

  lemma {:induction false} DeleteSum(id: nat, b: seq<OrderRec>)
    requires DistinctIds(b)
    ensures Sum(b) == Sum(Delete(id, b)) + if Find(id, b).Some? then Find(id, b).value.remaining else 0
  {
    if b != [] {
      if b[0].id == id {
        DeleteAbsent(id, b[1..]);
      } else {
        DeleteSum(id, b[1..]);
        assert ([b[0]] + Delete(id, b[1..]))[1..] == Delete(id, b[1..]);
      }
    }
  }

  lemma {:induction false} SettleConserves(s: State, taker: OrderRec, side: Side)
    requires taker.remaining >= 0 && (taker.typ == FOK ==> taker.remaining == 0)
    ensures Sum(Settle(s, taker).state.book.On(side)) + Exits(Settle(s, taker).events, side)
         == Sum(s.book.On(side)) + if side == taker.side then taker.remaining else 0
  {
    InsertSum(taker.(status := STATUS_OPEN), s.book.On(taker.side));
    assert Settle(s, taker).events[1..] == [];
  }

  lemma {:induction false} SweepConserves(s: State, o: OrderRec, taker: OrderRec, side: Side)
    requires Live(s.book.On(o.side.Opposite()))
    ensures
      var opp := o.side.Opposite();
      var r := Sweep(o, o.remaining, s.book.On(opp));
      && r.remaining == o.remaining - FilledQty(r.fills)
      && Exits(TradeEvents(s.seqNo, s.tradeSeq, taker, r.fills), side) == FilledQty(r.fills)
      && Sum(s.book.On(side)) ==
         Sum(s.book.With(opp, r.book).On(side)) + if side == opp then FilledQty(r.fills) else 0
  {
    var other := s.book.On(o.side.Opposite());
    SweepFilledQty(o, o.remaining, other);
    TradesExit(s.seqNo, s.tradeSeq, taker, Sweep(o, o.remaining, other).fills, side);
  }

  lemma {:induction false} MatchConserves(s: State, o: OrderRec, side: Side)
    requires BookOk(s.book) && ValidOrder(o) && (o.typ == FOK ==> Sum(s.book.On(o.side.Opposite())) >= o.remaining)
    ensures Sum(MatchAndSettle(s, o).state.book.On(side)) + Exits(MatchAndSettle(s, o).events, side)
         == Sum(s.book.On(side)) + if side == o.side then o.remaining else 0
  {
    var opp := o.side.Opposite();
    var r := Sweep(o, o.remaining, s.book.On(opp));
    var taker := AfterMatch(o, r.remaining);
    var swept := State(s.book.With(opp, r.book), s.seqNo, s.tradeSeq + |r.fills|);
    MatchedConserves(s, o, side, r, taker, swept);
  }

  lemma {:induction false} MatchedConserves(s: State, o: OrderRec, side: Side, r: Swept, taker: OrderRec, swept: State)
    requires BookOk(s.book) && ValidOrder(o) && (o.typ == FOK ==> Sum(s.book.On(o.side.Opposite())) >= o.remaining)
    requires r == Sweep(o, o.remaining, s.book.On(o.side.Opposite())) && taker == AfterMatch(o, r.remaining)
    requires swept == State(s.book.With(o.side.Opposite(), r.book), s.seqNo, s.tradeSeq + |r.fills|)
    ensures Sum(Settle(swept, taker).state.book.On(side))
          + Exits(TradeEvents(s.seqNo, s.tradeSeq, taker, r.fills) + Settle(swept, taker).events, side)
         == Sum(s.book.On(side)) + if side == o.side then o.remaining else 0
  {
    SweepConserves(s, o, taker, side);
    SweepBook(o, o.remaining, s.book.On(o.side.Opposite()));
    if o.typ == FOK {
      FokIsFilled(o, s.book.On(o.side.Opposite()));
    }
    SettleConserves(swept, taker, side);
    ExitsAppend(TradeEvents(s.seqNo, s.tradeSeq, taker, r.fills), Settle(swept, taker).events, side);
  }

  lemma {:induction false} FokIsFilled(o: OrderRec, b: seq<OrderRec>)
    requires Live(b) && o.typ == FOK && 0 <= o.remaining <= Sum(b)
    ensures Sweep(o, o.remaining, b).remaining == 0
  {
    SweepFilledQty(o, o.remaining, b);
    SweepBook(o, o.remaining, b);
    if Sweep(o, o.remaining, b).remaining > 0 {
      SweepStops(o, o.remaining, b);
    }
  }

  lemma {:induction false} NewOrderConserves(s: State, o: OrderRec, side: Side)
    requires BookOk(s.book) && ValidOrder(o)
    ensures Sum(NewOrderStep(s, o).state.book.On(side)) + Exits(NewOrderStep(s, o).events, side)
         == Sum(s.book.On(side)) + if side == o.side then o.remaining else 0
  {
    if o.typ == POST_ONLY && !WouldCross(s.book, o) {
      InsertSum(o.(status := STATUS_OPEN), s.book.On(o.side));
      assert NewOrderStep(s, o).events[1..] == [];
    } else if o.typ in {FOK, LIMIT, IOC, MARKET} && !(o.typ == FOK && !CanFill(s.book, o)) {
      OrderLaws.DepthSeesAllIff(s.book.On(o.side.Opposite()), SNAPSHOT_DEPTH);
      MatchConserves(s, o, side);
    } else {
      assert NewOrderStep(s, o).events[1..] == [];
    }
  }

  lemma {:induction false} CancelConserves(s: State, id: nat, side: Side)
    requires BookOk(s.book)
    ensures Sum(CancelStep(s, id).state.book.On(side)) + Exits(CancelStep(s, id).events, side) == Sum(s.book.On(side))
  {
    assert CancelStep(s, id).events[1..] == [];
    DeleteSum(id, s.book.On(side));
    FindIffPresent(id, s.book.bids);
    FindIffPresent(id, s.book.asks);
    if FindInBook(id, s.book).None? {
      DeleteAbsent(id, s.book.On(side));
    } else if Find(id, s.book.On(side)).None? {
      DeleteAbsent(id, s.book.On(side));
    }
  }

  /**
   Conservation on each side of the market, over every valid run: what was submitted is what was traded, plus what
   was cancelled or rejected, plus what still rests. The traded term is the same on both sides.
   */
  lemma {:induction false} QuantityIsConserved(cs: seq<CommandRec>, side: Side)
    requires ValidRun(cs)
    ensures Submitted(cs, side) == Exits(Run(cs).events, side) + Sum(Run(cs).state.book.On(side))
  {
    if cs != [] {
      var k := |cs| - 1;
      var before := Run(cs[..k]);
      assert cs[..k] + [cs[k]] == cs;
      QuantityIsConserved(cs[..k], side);
      RunKeepsBook(cs[..k]);
      StepConserves(before.state, cs[k], side, Step(before.state, cs[k]));
      ExitsAppend(before.events, Step(before.state, cs[k]).events, side);
    }
  }

  lemma {:induction false} HandledConserves(s: State, c: CommandRec, side: Side, out: Outcome)
    requires BookOk(s.book) && ValidCommand(c) && out == Handled(s, c)
    ensures Sum(out.state.book.On(side)) + Exits(out.events, side)
         == Sum(s.book.On(side)) + if c.NewOrder? && c.order.side == side then c.order.remaining else 0
  {
    match c
    case NewOrder(o, now) => NewOrderConserves(s, Stamped(o, now), side);
    case CancelOrder(id, _) => CancelConserves(s, id, side);
    case OtherCommand =>
  }

  lemma {:induction false} StepConserves(s: State, c: CommandRec, side: Side, out: Outcome)
    requires BookOk(s.book) && ValidCommand(c) && out == Step(s, c)
    ensures Sum(out.state.book.On(side)) + Exits(out.events, side)
         == Sum(s.book.On(side)) + if c.NewOrder? && c.order.side == side then c.order.remaining else 0
  {
    HandledConserves(s.(seqNo := s.seqNo + 1), c, side, out);
  }

  // ----- The balance of one order -----

  /** The quantity the stream says order `id` has traded, as maker or taker. */
  function Traded(es: seq<RawEvent>, id: nat): int {
    if es == [] then 0
    else
      (if es[0].evtType == EVT_TRADE && (es[0].orderId == id || es[0].makerOrderId == id) then es[0].quantity else 0)
      + Traded(es[1..], id)
  }

  lemma {:induction false} TradedAppend(a: seq<RawEvent>, b: seq<RawEvent>, id: nat)
    ensures Traded(a + b, id) == Traded(a, id) + Traded(b, id)
  {
    if a == [] {
      assert a + b == b;
    } else {
      assert (a + b)[1..] == a[1..] + b;
      TradedAppend(a[1..], b, id);
    }
  }

  /** What an order has lost since it was submitted is what the stream says it traded. */
  ghost predicate InBalance(o: OrderRec, es: seq<RawEvent>) {
    o.quantity - o.remaining == Traded(es, o.id)
  }

  ghost predicate Balanced(b: seq<OrderRec>, es: seq<RawEvent>) {
    forall o :: o in b ==> InBalance(o, es)
  }

  /** A sweep trades with nobody who is not on the list, and only as much as it fills. */
  lemma {:induction false} SweepTraded(t: OrderRec, rem: int, b: seq<OrderRec>, taker: OrderRec,
                                       seqNo: nat, tradeSeq: nat, id: nat)
    requires taker.id !in Ids(b) && id !in Ids(b)
    ensures Traded(TradeEvents(seqNo, tradeSeq, taker, Sweep(t, rem, b).fills), id)
         == if id == taker.id then FilledQty(Sweep(t, rem, b).fills) else 0
    decreases |b|
  {
    var r := Sweep(t, rem, b);
    if r.fills != [] {
      if rem < b[0].remaining {
        assert r.fills[1..] == [];
      } else {
        SweepTraded(t, rem - b[0].remaining, b[1..], taker, seqNo, tradeSeq + 1, id);
        assert r.fills[1..] == Sweep(t, rem - b[0].remaining, b[1..]).fills;
      }
    }
  }

  /** After the trades of a sweep are on the stream, what the sweep left is in balance again. */
  lemma {:induction false} SweepBalances(t: OrderRec, rem: int, b: seq<OrderRec>, taker: OrderRec,
                                         seqNo: nat, tradeSeq: nat, es: seq<RawEvent>)
    requires DistinctIds(b) && taker.id !in Ids(b) && Balanced(b, es)
    ensures
      var r := Sweep(t, rem, b);
      Balanced(r.book, es + TradeEvents(seqNo, tradeSeq, taker, r.fills))
    decreases |b|
  {
    var r := Sweep(t, rem, b);
    var trades := TradeEvents(seqNo, tradeSeq, taker, r.fills);
    if r.fills == [] {
      assert es + trades == es;
    } else {
      var e := TradeEvent(seqNo, tradeSeq + 1, taker, r.fills[0]);
      assert trades == [e] + TradeEvents(seqNo, tradeSeq + 1, taker, r.fills[1..]);
      TradedAppend(es, [e], b[0].id);
      OthersStayBalanced(b[1..], e, es);
      if rem < b[0].remaining {
        assert r.fills[1..] == [];
        assert trades == [e];
        assert b[0] in b && InBalance(r.book[0], es + [e]);
      } else {
        SweepBalances(t, rem - b[0].remaining, b[1..], taker, seqNo, tradeSeq + 1, es + [e]);
        assert r.fills[1..] == Sweep(t, rem - b[0].remaining, b[1..]).fills;
        assert es + [e] + TradeEvents(seqNo, tradeSeq + 1, taker, r.fills[1..]) == es + trades;
      }
    }
  }

  lemma {:induction false} OthersStayBalanced(b: seq<OrderRec>, e: RawEvent, es: seq<RawEvent>)
    requires Balanced(b, es) && e.makerOrderId !in Ids(b) && e.orderId !in Ids(b)
    ensures Balanced(b, es + [e])
  {
    forall o | o in b
      ensures InBalance(o, es + [e])
    {
      var i :| 0 <= i < |b| && b[i] == o;
      IdAt(b, i);
      assert InBalance(o, es);
      TradedAppend(es, [e], o.id);
    }
  }

  /** Records that are not trades change no balance. */
  lemma {:induction false} LifecycleKeepsBalance(b: seq<OrderRec>, es: seq<RawEvent>, e: RawEvent)
    requires Balanced(b, es) && e.evtType != EVT_TRADE
    ensures Balanced(b, es + [e])
  {
    forall o | o in b
      ensures InBalance(o, es + [e])
    {
      assert InBalance(o, es);
      TradedAppend(es, [e], o.id);
    }
  }

  ghost predicate BookBalanced(book: Book, es: seq<RawEvent>) {
    Balanced(book.bids, es) && Balanced(book.asks, es)
  }

  /** A lifecycle record that bears an order (a rejected cancel bears none) states its true balance. */
  ghost predicate RecordBalanced(e: RawEvent, es: seq<RawEvent>) {
    e.evtType != EVT_TRADE && e.side != 0 ==> e.quantity - e.remaining == Traded(es, e.orderId)
  }

  /** So does every record of a stream, at the time it is written. */
  ghost predicate AllRecordsBalanced(es: seq<RawEvent>) {
    forall k {:trigger RecordBalanced(es[k], es[..k + 1])} :: 0 <= k < |es| ==> RecordBalanced(es[k], es[..k + 1])
  }

  lemma {:induction false} RecordsAppend(es: seq<RawEvent>, more: seq<RawEvent>)
    requires AllRecordsBalanced(es)
    requires forall i :: 0 <= i < |more| - 1 ==> more[i].evtType == EVT_TRADE
    requires more != [] ==> RecordBalanced(more[|more| - 1], es + more)
    ensures AllRecordsBalanced(es + more)
  {
    var all := es + more;
    forall k | 0 <= k < |all|
      ensures RecordBalanced(all[k], all[..k + 1])
    {
      if k < |es| {
        assert RecordBalanced(es[k], es[..k + 1]) && all[..k + 1] == es[..k + 1];
      } else if k == |all| - 1 {
        assert all[..k + 1] == all;
      } else {
        assert all[k] == more[k - |es|];
      }
    }
  }

  lemma {:induction false} RestBalances(s: State, o: OrderRec, es: seq<RawEvent>)
    requires BookBalanced(s.book, es) && InBalance(o, es)
    ensures BookBalanced(Rest(s, o).state.book, es + Rest(s, o).events)
    ensures RecordBalanced(Rest(s, o).events[0], es + Rest(s, o).events)
  {
    var resting := o.(status := STATUS_OPEN);
    InsertAtRank(resting, s.book.On(o.side));
    assert forall x :: x in Insert(resting, s.book.On(o.side)) ==> x == resting || x in s.book.On(o.side);
    assert InBalance(resting, es);
    LifecycleKeepsBalance([resting], es, Rest(s, o).events[0]);
    assert InBalance([resting][0], es + Rest(s, o).events);
    LifecycleKeepsBalance(Rest(s, o).state.book.bids, es, Rest(s, o).events[0]);
    LifecycleKeepsBalance(Rest(s, o).state.book.asks, es, Rest(s, o).events[0]);
  }

  lemma {:induction false} SettleBalances(s: State, taker: OrderRec, es: seq<RawEvent>, out: Outcome)
    requires BookBalanced(s.book, es) && InBalance(taker, es) && out == Settle(s, taker)
    ensures BookBalanced(out.state.book, es + out.events)
    ensures out.events != [] && RecordBalanced(out.events[|out.events| - 1], es + out.events)
  {
    if taker.remaining > 0 && taker.typ == LIMIT {
      RestBalances(s, taker, es);
    } else {
      var e := out.events[0];
      LifecycleKeepsBalance(s.book.bids, es, e);
      LifecycleKeepsBalance(s.book.asks, es, e);
      TradedAppend(es, [e], taker.id);
    }
  }

  /** The trades of a match leave both sides and the taker in balance. */
  lemma {:induction false} TradesBalance(s: State, o: OrderRec, es: seq<RawEvent>, r: Swept,
                                         taker: OrderRec, trades: seq<RawEvent>)
    requires BookOk(s.book) && ValidOrder(o) && o.id !in BookIds(s.book)
    requires BookBalanced(s.book, es) && Traded(es, o.id) == 0
    requires r == Sweep(o, o.remaining, s.book.On(o.side.Opposite())) && taker == AfterMatch(o, r.remaining)
    requires trades == TradeEvents(s.seqNo, s.tradeSeq, taker, r.fills)
    ensures BookBalanced(s.book.With(o.side.Opposite(), r.book), es + trades) && InBalance(taker, es + trades)
  {
    var other := s.book.On(o.side.Opposite());
    var own := s.book.On(o.side);
    SweepBalances(o, o.remaining, other, taker, s.seqNo, s.tradeSeq, es);
    SweepFilledQty(o, o.remaining, other);
    SweepTraded(o, o.remaining, other, taker, s.seqNo, s.tradeSeq, o.id);
    TradedAppend(es, trades, o.id);
    forall x | x in own
      ensures InBalance(x, es + trades)
    {
      var i :| 0 <= i < |own| && own[i] == x;
      IdAt(own, i);
      assert InBalance(x, es);
      SweepTraded(o, o.remaining, other, taker, s.seqNo, s.tradeSeq, x.id);
      TradedAppend(es, trades, x.id);
    }
  }

  lemma {:induction false} MatchBalances(s: State, o: OrderRec, es: seq<RawEvent>, out: Outcome)
    requires BookOk(s.book) && ValidOrder(o) && o.id !in BookIds(s.book) && out == MatchAndSettle(s, o)
    requires BookBalanced(s.book, es) && Traded(es, o.id) == 0
    ensures BookBalanced(out.state.book, es + out.events)
    ensures out.events != [] && RecordBalanced(out.events[|out.events| - 1], es + out.events)
  {
    var taker, swept, trades, last := MatchParts(s, o, out);
    TradesBalance(s, o, es, Sweep(o, o.remaining, s.book.On(o.side.Opposite())), taker, trades);
    SettleBalances(swept, taker, es + trades, last);
    Regrouped(es, trades, last.events);
  }

  lemma Regrouped(a: seq<RawEvent>, b: seq<RawEvent>, c: seq<RawEvent>)
    ensures a + (b + c) == a + b + c
  {
  }

  lemma {:induction false} RejectBalances(s: State, o: OrderRec, reason: string, es: seq<RawEvent>)
    requires BookBalanced(s.book, es) && ValidOrder(o) && Traded(es, o.id) == 0
    ensures BookBalanced(s.book, es + Reject(s, o, reason).events)
    ensures RecordBalanced(Reject(s, o, reason).events[0], es + Reject(s, o, reason).events)
  {
    var e := Reject(s, o, reason).events[0];
    LifecycleKeepsBalance(s.book.bids, es, e);
    LifecycleKeepsBalance(s.book.asks, es, e);
    TradedAppend(es, [e], o.id);
  }

  lemma {:induction false} NewOrderBalances(s: State, o: OrderRec, es: seq<RawEvent>, out: Outcome)
    requires BookOk(s.book) && ValidOrder(o) && o.id !in BookIds(s.book) && out == NewOrderStep(s, o)
    requires BookBalanced(s.book, es) && Traded(es, o.id) == 0
    ensures BookBalanced(out.state.book, es + out.events)
    ensures RecordBalanced(out.events[|out.events| - 1], es + out.events)
  {
    if o.typ == POST_ONLY {
      if WouldCross(s.book, o) {
        RejectBalances(s, o, "post-only order would immediately match", es);
      } else {
        RestBalances(s, o, es);
      }
    } else if o.typ == FOK && !CanFill(s.book, o) {
      RejectBalances(s, o, "insufficient liquidity for FOK", es);
    } else if o.typ in {FOK, LIMIT, IOC, MARKET} {
      MatchBalances(s, o, es, out);
    } else {
      RejectBalances(s, o, "unknown order type", es);
    }
  }

  lemma {:induction false} CancelBalances(s: State, id: nat, es: seq<RawEvent>)
    requires BookOk(s.book) && BookBalanced(s.book, es)
    ensures
      var out := CancelStep(s, id);
      && BookBalanced(out.state.book, es + out.events)
      && RecordBalanced(out.events[0], es + out.events)
  {
    var out := CancelStep(s, id);
    FindIffPresent(id, s.book.bids);
    FindIffPresent(id, s.book.asks);
    DeleteKeepsSide(id, Buy, s.book.bids);
    DeleteKeepsSide(id, Sell, s.book.asks);
    LifecycleKeepsBalance(out.state.book.bids, es, out.events[0]);
    LifecycleKeepsBalance(out.state.book.asks, es, out.events[0]);
    TradedAppend(es, out.events, id);
    assert FindInBook(id, s.book).Some? ==> InBalance(FindInBook(id, s.book).value, es);
  }

  lemma {:induction false} StepBalances(s: State, c: CommandRec, es: seq<RawEvent>, out: Outcome)
    requires out == Step(s, c) && BookOk(s.book) && ValidCommand(c) && BookBalanced(s.book, es)
    requires c.NewOrder? ==> c.order.id !in BookIds(s.book) && Traded(es, c.order.id) == 0
    ensures BookBalanced(out.state.book, es + out.events)
    ensures out.events != [] ==> RecordBalanced(out.events[|out.events| - 1], es + out.events)
  {
    var s1 := s.(seqNo := s.seqNo + 1);
    match c
    case NewOrder(o, now) => NewOrderBalances(s1, Stamped(o, now), es, out);
    case CancelOrder(id, _) => CancelBalances(s1, id, es);
    case OtherCommand => assert es + [] == es;
  }

  lemma {:induction false} MatchTradesKnownIds(s: State, o: OrderRec, id: nat)
    requires id != o.id && id !in BookIds(s.book) && o.id !in BookIds(s.book)
    ensures Traded(MatchAndSettle(s, o).events, id) == 0
  {
    var other := s.book.On(o.side.Opposite());
    var r := Sweep(o, o.remaining, other);
    var taker := AfterMatch(o, r.remaining);
    var swept := State(s.book.With(o.side.Opposite(), r.book), s.seqNo, s.tradeSeq + |r.fills|);
    SweepTraded(o, o.remaining, other, taker, s.seqNo, s.tradeSeq, id);
    TradedAppend(TradeEvents(s.seqNo, s.tradeSeq, taker, r.fills), Settle(swept, taker).events, id);
    assert Settle(swept, taker).events[1..] == [];
  }

  lemma {:induction false} NewOrderTradesKnownIds(s: State, o: OrderRec, id: nat)
    requires id != o.id && id !in BookIds(s.book) && o.id !in BookIds(s.book)
    ensures Traded(NewOrderStep(s, o).events, id) == 0
  {
    if o.typ in {FOK, LIMIT, IOC, MARKET} {
      MatchTradesKnownIds(s, o, id);
    }
    assert |NewOrderStep(s, o).events| == 1 ==> NewOrderStep(s, o).events[1..] == [];
  }

  /** A command's trades name only resting orders and the command's own order. */
  lemma {:induction false} StepTradesKnownIds(s: State, c: CommandRec, id: nat, out: Outcome)
    requires id !in BookIds(s.book) && (c.NewOrder? ==> c.order.id != id && c.order.id !in BookIds(s.book))
    requires out == Step(s, c)
    ensures Traded(out.events, id) == 0
  {
    match c
    case NewOrder(o, now) =>
      NewOrderTradesKnownIds(s.(seqNo := s.seqNo + 1), Stamped(o, now), id);
    case CancelOrder(_, _) =>
      assert out.events[1..] == [];
    case OtherCommand =>
  }

  lemma {:induction false} SubmittedBefore(cs: seq<CommandRec>, id: nat)
    requires cs != [] && id !in SubmittedIds(cs)
    ensures id !in SubmittedIds(cs[..|cs| - 1]) && (cs[|cs| - 1].NewOrder? ==> cs[|cs| - 1].order.id != id)
  {
    assert SubmittedIds(cs[..|cs| - 1]) <= SubmittedIds(cs);
  }

  lemma NextIdUnused(cs: seq<CommandRec>)
    requires ValidRun(cs) && cs != [] && cs[|cs| - 1].NewOrder?
    ensures cs[|cs| - 1].order.id !in SubmittedIds(cs[..|cs| - 1])
  {
  }

  /** An id that was never submitted never trades. */
  lemma {:induction false} UnsubmittedNeverTrades(cs: seq<CommandRec>, id: nat)
    requires ValidRun(cs) && id !in SubmittedIds(cs)
    ensures Traded(Run(cs).events, id) == 0
  {
    if cs != [] {
      var k := |cs| - 1;
      var before := Run(cs[..k]);
      assert cs[..k] + [cs[k]] == cs;
      SubmittedBefore(cs, id);
      UnsubmittedNeverTrades(cs[..k], id);
      RunKeepsBook(cs[..k]);
      if cs[k].NewOrder? {
        NextIdUnused(cs);
      }
      StepTradesKnownIds(before.state, cs[k], id, Step(before.state, cs[k]));
      TradedAppend(before.events, Step(before.state, cs[k]).events, id);
    }
  }

  lemma {:induction false} StepRecords(s: State, c: CommandRec, es: seq<RawEvent>, out: Outcome)
    requires out == Step(s, c) && BookOk(s.book) && ValidCommand(c) && BookBalanced(s.book, es)
    requires c.NewOrder? ==> c.order.id !in BookIds(s.book) && Traded(es, c.order.id) == 0
    requires AllRecordsBalanced(es)
    ensures BookBalanced(out.state.book, es + out.events) && AllRecordsBalanced(es + out.events)
  {
    StepBalances(s, c, es, out);
    StepShape(s, c, out);
    RecordsAppend(es, out.events);
  }

  /**
   Every order's account adds up over every valid run: a resting order has traded exactly its quantity less its
   remainder, and every lifecycle record that bears an order, a rejected one too, states the true balance of that
   order at the time it is written.
   */
  lemma {:induction false} OrdersBalance(cs: seq<CommandRec>)
    requires ValidRun(cs)
    ensures BookBalanced(Run(cs).state.book, Run(cs).events)
    ensures AllRecordsBalanced(Run(cs).events)
  {
    if cs != [] {
      var k := |cs| - 1;
      var before := Run(cs[..k]);
      var out := Step(before.state, cs[k]);
      assert cs[..k] + [cs[k]] == cs;
      OrdersBalance(cs[..k]);
      RunKeepsBook(cs[..k]);
      if cs[k].NewOrder? {
        NextIdUnused(cs);
        UnsubmittedNeverTrades(cs[..k], cs[k].order.id);
      }
      StepRecords(before.state, cs[k], before.events, out);
    }
  }
}
