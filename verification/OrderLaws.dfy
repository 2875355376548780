/** What each order type is promised: price limits for sweeps, all-or-nothing for FOK, maker-only for POST_ONLY. */
module OrderLaws {
  import opened Types
  import opened FlatBook
  import opened EngineSpec
  import opened BookLaws

  // ----- Prices -----

  /** How many orders at the front are within the taker's limit. */
  function LimitLen(t: OrderRec, b: seq<OrderRec>): (n: nat)
    ensures n <= |b|
  {
    if b == [] || !WithinLimit(t, b[0].price) then 0 else 1 + LimitLen(t, b[1..])
  }

  lemma {:induction false} LimitLenSplits(t: OrderRec, b: seq<OrderRec>)
    requires Sorted(t.side.Opposite(), b)
    ensures forall i :: 0 <= i < |b| ==> (WithinLimit(t, b[i].price) <==> i < LimitLen(t, b))
  {
    if LimitLen(t, b) > 0 {
      var rest := b[1..];
      LimitLenSplits(t, rest);
      forall i | 0 < i < |b|
        ensures b[i] == rest[i - 1]
      {
      }
    }
  }

  /** Makers are paid best price first, and a LIMIT taker never trades beyond its own price. */
  lemma {:induction false} SweepPrices(t: OrderRec, rem: int, b: seq<OrderRec>)
    requires rem >= 0 && SideOk(t.side.Opposite(), b)
    ensures
      var fills := Sweep(t, rem, b).fills;
      && (forall i, j :: 0 <= i < j < |fills| ==>
            Key(t.side.Opposite(), fills[i].maker.price) <= Key(t.side.Opposite(), fills[j].maker.price))
      && (t.typ == LIMIT ==> forall i :: 0 <= i < |fills| ==>
            if t.side.Buy? then fills[i].maker.price <= t.price else fills[i].maker.price >= t.price)
  {
    SweepIsGreedy(t, rem, b);
  }

  /** The i-th order trades exactly when the orders in front of it cannot satisfy the taker. */
  lemma {:induction false} TradesIff(t: OrderRec, rem: int, b: seq<OrderRec>, i: nat)
    requires rem >= 0 && Live(b) && i < |b| && t.typ != LIMIT
    ensures i < |Sweep(t, rem, b).fills| <==> rem > Sum(b[..i])
  {
    SumNonNegative(b[..i]);
    if i == 0 {
      assert b[..0] == [];
    } else {
      assert b[..i][1..] == b[1..][..i - 1];
      SumNonNegative(b[1..][..i - 1]);
      if rem > b[0].remaining {
        TradesIff(t, rem - b[0].remaining, b[1..], i - 1);
      } else if rem == b[0].remaining {
        assert Sweep(t, 0, b[1..]).fills == [];
      }
    }
  }

  ghost predicate AllWithinLimit(t: OrderRec, fills: seq<Fill>) {
    forall i :: 0 <= i < |fills| ==> WithinLimit(t, fills[i].maker.price)
  }

  /**
   The order types promise that IOC and FOK fill "what crosses", but the matching loop bounds only LIMIT
   takers. Exactly when such a taker still keeps to its price: the orders within its limit are enough for
   it, or there are no others.
   */
  lemma {:induction false} UnboundedTakerKeepsItsPriceIff(t: OrderRec, b: seq<OrderRec>)
    requires t.typ != LIMIT && t.remaining > 0 && SideOk(t.side.Opposite(), b)
    ensures
      AllWithinLimit(t, Sweep(t, t.remaining, b).fills) <==>
      (t.remaining <= Sum(b[..LimitLen(t, b)]) || LimitLen(t, b) == |b|)
  {
    var fills := Sweep(t, t.remaining, b).fills;
    var n := LimitLen(t, b);
    SweepIsGreedy(t, t.remaining, b);
    LimitLenSplits(t, b);
    if n < |b| {
      TradesIff(t, t.remaining, b, n);
      if n < |fills| {
        assert !WithinLimit(t, fills[n].maker.price);
      }
    }
  }

  /** An IOC buy limited to 100 trades at 200. */
  lemma {:induction false} IocTradesThroughItsLimit()
    ensures
      var ask := OrderRec(1, 0, Sell, LIMIT, 200, 5, 5, STATUS_NEW, 7);
      var ioc := OrderRec(2, 0, Buy, IOC, 100, 5, 5, STATUS_NEW, 7);
      var cs := [NewOrder(ask, 0), NewOrder(ioc, 0)];
      && ValidRun(cs)
      && |Run(cs).events| == 3
      && Run(cs).events[1].evtType == EVT_TRADE && Run(cs).events[1].price == 200
  {
    var ask := OrderRec(1, 0, Sell, LIMIT, 200, 5, 5, STATUS_NEW, 7);
    var ioc := OrderRec(2, 0, Buy, IOC, 100, 5, 5, STATUS_NEW, 7);
    var first := [NewOrder(ask, 0)];
    RunExtends([], NewOrder(ask, 0));
    assert [] + first == first;
    var resting := ask.(status := STATUS_OPEN);
    var s1 := Run(first).state;
    assert s1.book == Book([], [resting]) && |Run(first).events| == 1;
    RunExtends(first, NewOrder(ioc, 0));
    assert first + [NewOrder(ioc, 0)] == [NewOrder(ask, 0), NewOrder(ioc, 0)];
    var fill := Fill(AfterFill(resting, 5), 5);
    assert Sweep(ioc, 5, [resting]) == Swept([fill], [], 0);
    assert TradeEvents(2, 0, AfterMatch(ioc, 0), [fill]) == [TradeEvent(2, 1, AfterMatch(ioc, 0), fill)];
  }

  // ----- Fill or kill -----

  function LevelCount(b: seq<OrderRec>): nat
    decreases |b|
  {
    if b == [] then 0 else 1 + LevelCount(b[FrontLen(b[0].price, b)..])
  }

  lemma {:induction false} SumSplit(b: seq<OrderRec>, n: nat)
    requires n <= |b|
    ensures Sum(b) == Sum(b[..n]) + Sum(b[n..])
  {
    assert b == b[..n] + b[n..];
    SumAppend(b[..n], b[n..]);
  }

  /** Looking `levels` deep sees everything exactly when there are no more levels than that. */
  lemma {:induction false} DepthSeesAllIff(b: seq<OrderRec>, levels: nat)
    requires Live(b)
    ensures DepthQty(b, levels) <= Sum(b)
    ensures DepthQty(b, levels) == Sum(b) <==> LevelCount(b) <= levels
    decreases levels
  {
    SumNonNegative(b);
    if b != [] && levels > 0 {
      var n := FrontLen(b[0].price, b);
      DepthSeesAllIff(b[n..], levels - 1);
      SumSplit(b, n);
    }
  }

  /**
   Fill or kill is all or nothing: accepted, it trades its whole quantity and ends with a FILLED record of
   nothing remaining; otherwise the engine's book and counters do not move and the only record is a rejection.
   */
  lemma {:induction false} FokAllOrNothing(s: State, o: OrderRec)
    requires BookOk(s.book) && ValidOrder(o) && o.typ == FOK
    ensures
      var out := NewOrderStep(s, o);
      var other := s.book.On(o.side.Opposite());
      if CanFill(s.book, o) then
        var r := Sweep(o, o.remaining, other);
        var done := o.(remaining := 0, status := STATUS_FILLED);
        && FilledQty(r.fills) == o.remaining
        && Sum(r.book) == Sum(other) - o.remaining
        && out.state == State(s.book.With(o.side.Opposite(), r.book), s.seqNo, s.tradeSeq + |r.fills|)
        && out.events == TradeEvents(s.seqNo, s.tradeSeq, done, r.fills) + [OrderEvent(EVT_FILLED, s.seqNo, done, "")]
      else
        && out.state == s
        && out.events == [OrderEvent(EVT_REJECTED, s.seqNo, o.(status := STATUS_REJECTED),
                                     "insufficient liquidity for FOK")]
  {
    var other := s.book.On(o.side.Opposite());
    if CanFill(s.book, o) {
      DepthSeesAllIff(other, SNAPSHOT_DEPTH);
      ReachesAll(o, other);
      assert other[..|other|] == other;
      SweepQuantity(o, o.remaining, other);
      SweepFilledQty(o, o.remaining, other);
    }
  }

  /** The pre-check answers "is there enough?" correctly for this order. */
  predicate CheckIsRight(book: Book, o: OrderRec) {
    CanFill(book, o) <==> Sum(book.On(o.side.Opposite())) >= o.remaining
  }

  lemma {:induction false} ShallowCheckIsRight(book: Book, o: OrderRec)
    requires Live(book.On(o.side.Opposite())) && LevelCount(book.On(o.side.Opposite())) <= SNAPSHOT_DEPTH
    ensures CheckIsRight(book, o)
  {
    DepthSeesAllIff(book.On(o.side.Opposite()), SNAPSHOT_DEPTH);
  }

  lemma {:induction false} DeepCheckIsWrong(book: Book, side: Side) returns (o: OrderRec)
    requires Live(book.On(side.Opposite())) && LevelCount(book.On(side.Opposite())) > SNAPSHOT_DEPTH
    ensures o.side == side && o.remaining > 0 && !CheckIsRight(book, o)
  {
    var other := book.On(side.Opposite());
    DepthSeesAllIff(other, SNAPSHOT_DEPTH);
    SumNonNegative(other);
    o := OrderRec(0, 0, side, FOK, 1, Sum(other), Sum(other), STATUS_NEW, 0);
  }

  /**
   "Fill completely or reject" needs the check to be right for every order; it is, on a given book, exactly when the
   opposite side has at most 4096 price levels. Deeper liquidity is not seen, so such an order is refused
   although it could be filled; it is never wrongly accepted.
   */
  lemma {:induction false} FokCheckIsExactIff(book: Book, side: Side)
    requires BookOk(book)
    ensures
      (forall o: OrderRec | o.side == side && o.remaining > 0 :: CheckIsRight(book, o)) <==>
      LevelCount(book.On(side.Opposite())) <= SNAPSHOT_DEPTH
  {
    if LevelCount(book.On(side.Opposite())) > SNAPSHOT_DEPTH {
      var o := DeepCheckIsWrong(book, side);
    } else {
      forall o: OrderRec | o.side == side && o.remaining > 0
        ensures CheckIsRight(book, o)
      {
        ShallowCheckIsRight(book, o);
      }
    }
  }

  /** An ask of one lot, as submitted; price and id are the same number. */
  function Ask(i: nat): OrderRec {
    OrderRec(i, 0, Sell, LIMIT, i, 1, 1, STATUS_NEW, 1)
  }

  /** Such asks resting at prices first, first + 1, ... */
  function Ladder(first: nat, n: nat): seq<OrderRec>
    decreases n
  {
    if n == 0 then [] else [Ask(first).(status := STATUS_OPEN)] + Ladder(first + 1, n - 1)
  }

  lemma {:induction false} LadderDepth(first: nat, n: nat, levels: nat)
    ensures Sum(Ladder(first, n)) == n
    ensures DepthQty(Ladder(first, n), levels) == Min(n, levels)
    decreases n
  {
    if n > 0 {
      var b := Ladder(first, n);
      LadderDepth(first + 1, n - 1, if levels > 0 then levels - 1 else 0);
      assert b[1..] == Ladder(first + 1, n - 1);
      assert FrontLen(first, b[1..]) == 0;
      assert FrontLen(first, b) == 1;
      assert b[..1] == [b[0]];
      assert Sum(b[..1]) == 1 + Sum(b[..1][1..]);
    }
  }

  lemma {:induction false} LadderGrows(first: nat, n: nat)
    ensures Insert(Ask(first + n).(status := STATUS_OPEN), Ladder(first, n)) == Ladder(first, n + 1)
    decreases n
  {
    if n > 0 {
      LadderGrows(first + 1, n - 1);
      assert Ladder(first, n)[1..] == Ladder(first + 1, n - 1);
    }
  }

  /** The commands that build a ladder of `n` asks. */
  function LadderRun(n: nat): (cs: seq<CommandRec>)
    ensures |cs| == n && forall i :: 0 <= i < n ==> cs[i] == NewOrder(Ask(i + 1), 0)
  {
    if n == 0 then [] else LadderRun(n - 1) + [NewOrder(Ask(n), 0)]
  }

  lemma {:induction false} RestOnLadder(n: nat)
    ensures
      Step(State(Book([], Ladder(1, n)), n, 0), NewOrder(Ask(n + 1), 0)).state ==
      State(Book([], Ladder(1, n + 1)), n + 1, 0)
  {
    LadderGrows(1, n);
    assert Sweep(Ask(n + 1), 1, []) == Swept([], [], 1);
  }

  lemma {:induction false} LadderIsBuilt(n: nat)
    ensures ValidRun(LadderRun(n)) && Run(LadderRun(n)).state == State(Book([], Ladder(1, n)), n, 0)
  {
    if n > 0 {
      LadderIsBuilt(n - 1);
      RestOnLadder(n - 1);
      RunExtends(LadderRun(n - 1), NewOrder(Ask(n), 0));
    }
  }

  lemma RefusedFok(s: State, o: OrderRec, out: Outcome)
    requires o.typ == FOK && o.timestamp != 0 && DepthQty(s.book.On(o.side.Opposite()), SNAPSHOT_DEPTH) < o.remaining
    requires out == Step(s, NewOrder(o, 0))
    ensures out.state == s.(seqNo := s.seqNo + 1)
    ensures
      out.events ==
      [OrderEvent(EVT_REJECTED, s.seqNo + 1, o.(status := STATUS_REJECTED), "insufficient liquidity for FOK")]
  {
  }

  lemma {:induction false} LadderAndFokValid(n: nat, o: OrderRec)
    requires ValidOrder(o) && o.id > n
    ensures ValidRun(LadderRun(n) + [NewOrder(o, 0)])
  {
    LadderIsBuilt(n);
  }

  /**
   A run in which `n` asks of one lot each come to rest, more than the pre-check looks at, and a FOK buy for all of
   them is then refused though the book could fill it.
   */
  lemma {:induction false} DeepBookRefusesFok(n: nat, o: OrderRec, before: Outcome, after: Outcome)
    requires n > SNAPSHOT_DEPTH && o == OrderRec(n + 1, 0, Buy, FOK, n + 1, n, n, STATUS_NEW, 1)
    requires before == Run(LadderRun(n)) && after == Run(LadderRun(n) + [NewOrder(o, 0)])
    ensures ValidRun(LadderRun(n) + [NewOrder(o, 0)]) && Sum(before.state.book.asks) == o.remaining
    ensures after.state.book == before.state.book
    ensures
      after.events ==
      before.events +
      [OrderEvent(EVT_REJECTED, n + 1, o.(status := STATUS_REJECTED), "insufficient liquidity for FOK")]
  {
    LadderIsBuilt(n);
    LadderAndFokValid(n, o);
    LadderDepth(1, n, SNAPSHOT_DEPTH);
    RunExtends(LadderRun(n), NewOrder(o, 0));
    RefusedFok(before.state, o, Step(before.state, NewOrder(o, 0)));
  }

  // ----- Resting orders -----

  /** POST_ONLY rests exactly if it crosses nothing, and never touches the other side. */
  lemma {:induction false} PostOnlyRestsIff(s: State, o: OrderRec)
    requires BookOk(s.book) && ValidOrder(o) && o.typ == POST_ONLY && o.id !in BookIds(s.book)
    ensures
      var out := NewOrderStep(s, o);
      && (o.id in BookIds(out.state.book) <==> NothingToCross(s.book, o))
      && out.state.book.On(o.side.Opposite()) == s.book.On(o.side.Opposite())
      && out.state.tradeSeq == s.tradeSeq
  {
    InsertIds(o.(status := STATUS_OPEN), s.book.On(o.side));
  }

  /**
   A LIMIT order rests exactly if what it can reach is less than its size; the residual is the difference,
   and nothing it could still trade with is left.
   */
  lemma {:induction false} LimitRestsIff(s: State, o: OrderRec, out: Outcome)
    requires BookOk(s.book) && ValidOrder(o) && o.typ == LIMIT && o.id !in BookIds(s.book)
    requires out == NewOrderStep(s, o)
    ensures
      var other := s.book.On(o.side.Opposite());
      var reach := Sum(other[..LimitLen(o, other)]);
      && (o.id in BookIds(out.state.book) <==> reach < o.remaining)
      && (o.id in BookIds(out.state.book) ==>
            && NothingToCross(out.state.book, o)
            && o.(remaining := o.remaining - reach, status := STATUS_OPEN) in out.state.book.On(o.side))
  {
    LimitSweep(o, s.book.On(o.side.Opposite()));
    var taker, swept, trades, last := MatchParts(s, o, out);
    if taker.remaining > 0 {
      RestHolds(swept, taker);
    }
  }

  lemma {:induction false} LimitSweep(o: OrderRec, b: seq<OrderRec>)
    requires SideOk(o.side.Opposite(), b) && ValidOrder(o) && o.typ == LIMIT
    ensures
      var r := Sweep(o, o.remaining, b);
      var reach := Sum(b[..LimitLen(o, b)]);
      && r.remaining == o.remaining - Min(o.remaining, reach)
      && (r.remaining > 0 ==> r.book == [] || !WithinLimit(o, r.book[0].price))
      && Ids(r.book) <= Ids(b)
  {
    SweepQuantity(o, o.remaining, b);
    SweepFilledQty(o, o.remaining, b);
    LimitLenIsReachLen(o, b);
    SweepIds(o, o.remaining, b);
    if Sweep(o, o.remaining, b).remaining > 0 {
      SweepStops(o, o.remaining, b);
    }
  }

  lemma {:induction false} RestHolds(s: State, o: OrderRec)
    ensures
      var own := Rest(s, o).state.book.On(o.side);
      o.(status := STATUS_OPEN) in own && o.id in Ids(own)
  {
    InsertIds(o.(status := STATUS_OPEN), s.book.On(o.side));
    InsertAtRank(o.(status := STATUS_OPEN), s.book.On(o.side));
  }

  lemma {:induction false} LimitLenIsReachLen(t: OrderRec, b: seq<OrderRec>)
    requires t.typ == LIMIT
    ensures LimitLen(t, b) == ReachLen(t, b)
  {
    if b != [] {
      LimitLenIsReachLen(t, b[1..]);
    }
  }
}
