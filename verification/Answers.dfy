/**
 What the engine answers, told record by record and field by field, in plain prices and quantities and without any of
 the machine's own functions: which resting orders a new order trades with, for how much, what every record of it says,
 what it leaves of either side, and what becomes of a cancel. Order types, event types, statuses and sides are the
 numbers that go over the wire (pkg/types/types.go:14-97).
 */
module Answers {
  import opened Types
  import opened FlatBook
  import opened EngineSpec
  import opened BookLaws
  import opened OrderLaws
  import opened Grammar
  import opened Depth

  // ----- In plain terms -----

  /** The side an order trades with, and the side it would rest on. */
  function Against(book: Book, o: OrderRec): seq<OrderRec> {
    if o.side.Buy? then book.asks else book.bids
  }

  function Beside(book: Book, o: OrderRec): seq<OrderRec> {
    if o.side.Buy? then book.bids else book.asks
  }

  /** A buyer's price is at least the other's, a seller's at most. */
  predicate Meets(o: OrderRec, price: int) {
    if o.side.Buy? then price <= o.price else price >= o.price
  }

  /** LIMIT orders (type 1) trade only where prices meet; all others anywhere. */
  predicate MayTrade(o: OrderRec, price: int) {
    o.typ == 1 ==> Meets(o, price)
  }

  /** All that rests where the order may trade. */
  function Offered(o: OrderRec, b: seq<OrderRec>): int {
    if b == [] then 0 else (if MayTrade(o, b[0].price) then b[0].remaining else 0) + Offered(o, b[1..])
  }

  /** What is offered cannot fill this much of the order. */
  function Unfilled(o: OrderRec, b: seq<OrderRec>): int {
    if Offered(o, b) >= o.remaining then 0 else o.remaining - Offered(o, b)
  }

  /** What rests at the best 4096 prices is enough for the order. */
  ghost predicate ShownEnough(o: OrderRec, b: seq<OrderRec>) {
    exists k: nat :: Shown(b, 4096, k) && Sum(b[..k]) >= o.remaining
  }

  ghost predicate Crosses(o: OrderRec, b: seq<OrderRec>) {
    exists i :: 0 <= i < |b| && Meets(o, b[i].price)
  }

  // ----- Records -----

  /** The record names the order and has its fields. */
  predicate Bears(e: RawEvent, seqNo: nat, o: OrderRec) {
    && e.seqNo == seqNo && e.orderId == o.id && e.makerOrderId == 0 && e.tradeId == 0
    && e.orderType == o.typ && e.side == (if o.side.Buy? then 1 else -1)
    && e.price == o.price && e.quantity == o.quantity && e.timestamp == o.timestamp
  }

  predicate Says(e: RawEvent, kind: int, status: int, remaining: int, reason: string) {
    e.evtType == kind && e.orderStatus == status && e.remaining == remaining && e.reason == reason
  }

  predicate SaysAccepted(e: RawEvent, remaining: int) {
    Says(e, 1, 2, remaining, "")
  }

  predicate SaysFilled(e: RawEvent) {
    Says(e, 2, 4, 0, "")
  }

  predicate SaysCancelled(e: RawEvent, remaining: int) {
    Says(e, 3, 5, remaining, "")
  }

  predicate SaysRejected(e: RawEvent, remaining: int, reason: string) {
    Says(e, 4, 6, remaining, reason)
  }

  /** The order takes what the `k`-th resting order has, or what those before it have left it to want. */
  function Taken(o: OrderRec, b: seq<OrderRec>, k: nat): int
    requires k < |b|
  {
    if Sum(b[..k + 1]) <= o.remaining then b[k].remaining else o.remaining - Sum(b[..k])
  }

  /** The record of the trade with the `k`-th resting order; the status is the maker's, the remainder the taker's. */
  predicate TellsTrade(e: RawEvent, k: nat, s: State, o: OrderRec, b: seq<OrderRec>) {
    && k < |b| && e.evtType == 5 && e.seqNo == s.seqNo && e.tradeId == s.tradeSeq + k + 1
    && e.orderId == o.id && e.orderType == o.typ && e.side == (if o.side.Buy? then 1 else -1)
    && e.makerOrderId == b[k].id && e.price == b[k].price && e.quantity == Taken(o, b, k)
    && e.orderStatus == (if Sum(b[..k + 1]) <= o.remaining then 4 else 3)
    && e.remaining == Unfilled(o, b) && e.timestamp == o.timestamp && e.reason == ""
  }

  // ----- The two sides -----

  /** The order trades with the `k`-th: it may, and still wants something after those before it. */
  predicate Takes(o: OrderRec, b: seq<OrderRec>, k: nat)
    requires k < |b|
  {
    MayTrade(o, b[k].price) && Sum(b[..k]) < o.remaining
  }

  /** The order trades with exactly the first `n`. */
  ghost predicate TradesWithFirst(o: OrderRec, b: seq<OrderRec>, n: nat) {
    n <= |b| && forall k: nat :: k < |b| ==> (k < n <==> Takes(o, b, k))
  }

  /** They are gone, but the last of them keeps what was not wanted, marked as partially filled. */
  ghost predicate Thinned(rem: int, b: seq<OrderRec>, n: nat, b': seq<OrderRec>) {
    && n <= |b|
    && if Sum(b[..n]) <= rem then b' == b[n..]
       else n > 0 && b' == [b[n - 1].(remaining := Sum(b[..n]) - rem, status := 3)] + b[n..]
  }

  /** The order stands behind all that is priced at least as well, and before all that is priced worse. */
  ghost predicate Joins(o: OrderRec, b: seq<OrderRec>, b': seq<OrderRec>, p: nat) {
    && p <= |b| && b' == b[..p] + [o] + b[p..]
    && (forall i :: 0 <= i < p ==> !Better(o.side, o.price, b[i].price))
    && (forall i :: p <= i < |b| ==> Better(o.side, o.price, b[i].price))
  }

  /** The order rests, open, with this much remaining; the side it trades with becomes `b`. */
  ghost predicate Rests(s: State, o: OrderRec, remaining: int, b: seq<OrderRec>, s': State) {
    && Against(s'.book, o) == b
    && exists p :: Joins(o.(remaining := remaining, status := 2), Beside(s.book, o), Beside(s'.book, o), p)
  }

  // ----- New orders -----

  ghost predicate Refused(s: State, o: OrderRec, reason: string, s': State, es: seq<RawEvent>) {
    s' == s && |es| == 1 && Bears(es[0], s.seqNo, o) && SaysRejected(es[0], o.remaining, reason)
  }

  /** It rests as it came, having traded with nobody. */
  ghost predicate Posted(s: State, o: OrderRec, s': State, es: seq<RawEvent>) {
    && |es| == 1 && Bears(es[0], s.seqNo, o) && SaysAccepted(es[0], o.remaining)
    && Rests(s, o, o.remaining, Against(s.book, o), s')
    && s'.seqNo == s.seqNo && s'.tradeSeq == s.tradeSeq
  }

  /** One record for each trade, in order. */
  ghost predicate AllTold(trades: seq<RawEvent>, s: State, o: OrderRec, b: seq<OrderRec>) {
    forall k: nat :: k < |trades| ==> TellsTrade(trades[k], k, s, o, b)
  }

  ghost predicate Traded(s: State, o: OrderRec, s': State, trades: seq<RawEvent>) {
    && TradesWithFirst(o, Against(s.book, o), |trades|)
    && AllTold(trades, s, o, Against(s.book, o))
    && Thinned(o.remaining, Against(s.book, o), |trades|, Against(s'.book, o))
    && s'.seqNo == s.seqNo && s'.tradeSeq == s.tradeSeq + |trades|
  }

  /** What is left of an order that has traded: a LIMIT order (1) rests, others are cancelled; nothing means filled. */
  ghost predicate Closed(s: State, o: OrderRec, s': State, e: RawEvent) {
    var left := Unfilled(o, Against(s.book, o));
    && Bears(e, s.seqNo, o)
    && if left > 0 && o.typ == 1 then
         SaysAccepted(e, left) && Rests(s, o, left, Against(s'.book, o), s')
       else
         (if left > 0 then SaysCancelled(e, left) else SaysFilled(e)) && Beside(s'.book, o) == Beside(s.book, o)
  }

  /** The whole answer: FOK (4) and POST_ONLY (5) are checked first, and types but LIMIT, MARKET and IOC unknown. */
  ghost predicate Answered(s: State, o: OrderRec, s': State, es: seq<RawEvent>) {
    if o.typ == 5 then
      if Crosses(o, Against(s.book, o)) then Refused(s, o, "post-only order would immediate", s', es)
      else Posted(s, o, s', es)
    else if o.typ == 4 && !ShownEnough(o, Against(s.book, o)) then
      Refused(s, o, "insufficient liquidity for FOK", s', es)
    else if 1 <= o.typ <= 4 then
      && es != [] && Traded(s, o, s', es[..|es| - 1]) && Closed(s, o, s', es[|es| - 1])
      && (o.typ == 4 ==> SaysFilled(es[|es| - 1]))
    else
      Refused(s, o, "unknown order type", s', es)
  }

  // ----- What a taker reaches -----

  lemma {:induction false} ReachSplits(o: OrderRec, b: seq<OrderRec>)
    requires BestFirst(o.side.Opposite(), b)
    ensures forall i :: 0 <= i < |b| ==> (MayTrade(o, b[i].price) <==> i < ReachLen(o, b))
  {
    if b != [] && Reaches(o, b[0].price) {
      var rest := b[1..];
      ReachSplits(o, rest);
      forall i | 0 < i < |b|
        ensures b[i] == rest[i - 1]
      {
      }
    }
  }

  lemma {:induction false} NothingOffered(o: OrderRec, b: seq<OrderRec>)
    requires forall i :: 0 <= i < |b| ==> !MayTrade(o, b[i].price)
    ensures Offered(o, b) == 0
  {
    if b != [] {
      NothingOffered(o, b[1..]);
    }
  }

  lemma {:induction false} OfferedIsReach(o: OrderRec, b: seq<OrderRec>)
    requires BestFirst(o.side.Opposite(), b)
    ensures Offered(o, b) == Sum(b[..ReachLen(o, b)])
  {
    var m := ReachLen(o, b);
    ReachSplits(o, b);
    if m == 0 {
      NothingOffered(o, b);
    } else {
      OfferedIsReach(o, b[1..]);
      assert b[..m][1..] == b[1..][..m - 1];
    }
  }

  lemma {:induction false} SumFirst(b: seq<OrderRec>, k: nat)
    requires 0 < k <= |b|
    ensures Sum(b[..k]) == b[0].remaining + Sum(b[1..][..k - 1])
  {
    assert b[..k][1..] == b[1..][..k - 1];
  }

  // ----- The sweep, spelled out -----

  /** It trades with the first few, as long as it reaches them and wants something. */
  lemma {:induction false} FillsIff(t: OrderRec, rem: int, b: seq<OrderRec>, k: nat)
    requires Live(b) && k < |b| && rem >= 0
    ensures k < |Sweep(t, rem, b).fills| <==> k < ReachLen(t, b) && Sum(b[..k]) < rem
    decreases k
  {
    SumNonNegative(b[..k]);
    if k > 0 {
      SumFirst(b, k);
      SumNonNegative(b[1..][..k - 1]);
      if rem >= b[0].remaining && Reaches(t, b[0].price) {
        FillsIff(t, rem - b[0].remaining, b[1..], k - 1);
      }
    }
  }

  lemma {:induction false} SweepThins(t: OrderRec, rem: int, b: seq<OrderRec>)
    requires Live(b) && rem >= 0
    ensures |Sweep(t, rem, b).fills| <= |b|
    ensures Thinned(rem, b, |Sweep(t, rem, b).fills|, Sweep(t, rem, b).book)
    decreases |b|
  {
    var r := Sweep(t, rem, b);
    var n := |r.fills|;
    if n == 0 {
      assert b[..0] == [] && b[0..] == b;
    } else if rem < b[0].remaining {
      SumFirst(b, 1);
      assert b[1..][..0] == [];
    } else {
      SweepThins(t, rem - b[0].remaining, b[1..]);
      SumFirst(b, n);
      assert b[1..][n - 1..] == b[n..];
    }
  }

  /** With the `k`-th of them, for all it has or all that is still wanted. */
  lemma {:induction false} FillIs(t: OrderRec, rem: int, b: seq<OrderRec>, k: nat)
    requires Live(b) && rem >= 0 && k < |Sweep(t, rem, b).fills|
    ensures
      k < |b| &&
      var f := Sweep(t, rem, b).fills[k];
      var used := Sum(b[..k + 1]) <= rem;
      && f.qty == (if used then b[k].remaining else rem - Sum(b[..k]))
      && f.maker.id == b[k].id && f.maker.price == b[k].price
      && f.maker.status == (if used then 4 else 3)
    decreases k
  {
    SweepThins(t, rem, b);
    SumFirst(b, k + 1);
    if k > 0 {
      SumFirst(b, k);
      FillIs(t, rem - b[0].remaining, b[1..], k - 1);
    } else {
      assert b[1..][..0] == [] && b[..0] == [];
    }
  }

  /** What the sweep leaves of the taker. */
  lemma {:induction false} SweepLeaves(t: OrderRec, b: seq<OrderRec>)
    requires Live(b) && BestFirst(t.side.Opposite(), b) && t.remaining >= 0
    ensures Sweep(t, t.remaining, b).remaining == Unfilled(t, b)
  {
    SweepQuantity(t, t.remaining, b);
    SweepFilledQty(t, t.remaining, b);
    OfferedIsReach(t, b);
  }

  lemma {:induction false} SweepTradesWithFirst(t: OrderRec, b: seq<OrderRec>)
    requires Live(b) && BestFirst(t.side.Opposite(), b) && t.remaining >= 0
    ensures TradesWithFirst(t, b, |Sweep(t, t.remaining, b).fills|)
  {
    SweepThins(t, t.remaining, b);
    ReachSplits(t, b);
    forall k: nat | k < |b|
      ensures k < |Sweep(t, t.remaining, b).fills| <==> Takes(t, b, k)
    {
      FillsIff(t, t.remaining, b, k);
    }
  }

  // ----- The records of a match -----

  /** The taker's own status when its match is over: filled, partially filled if it has traded, or what it was. */
  lemma {:induction false} TakerStatus(t: OrderRec, b: seq<OrderRec>, after: OrderRec)
    requires Live(b) && BestFirst(t.side.Opposite(), b) && t.quantity == t.remaining > 0
    requires after == AfterMatch(t, Sweep(t, t.remaining, b).remaining)
    ensures after == t.(remaining := Unfilled(t, b), status := after.status)
    ensures after.status == if Unfilled(t, b) == 0 then 4 else if Offered(t, b) > 0 then 3 else t.status
  {
    SweepLeaves(t, b);
    OfferedIsReach(t, b);
    SumNonNegative(b[..ReachLen(t, b)]);
  }

  lemma {:induction false} TradeTold(s: State, o: OrderRec, b: seq<OrderRec>, k: nat, taker: OrderRec, e: RawEvent)
    requires Live(b) && BestFirst(o.side.Opposite(), b) && o.remaining > 0
    requires
      var r := Sweep(o, o.remaining, b);
      && k < |r.fills| && taker == AfterMatch(o, r.remaining)
      && e == TradeEvent(s.seqNo, s.tradeSeq + 1 + k, taker, r.fills[k])
    ensures TellsTrade(e, k, s, o, b)
  {
    FillIs(o, o.remaining, b, k);
    SweepLeaves(o, b);
  }

  /** Everything but the closing record and what it stands for. */
  lemma {:induction false} MatchTrades(s: State, o: OrderRec, taker: OrderRec, swept: State, trades: seq<RawEvent>)
    requires BookOk(s.book) && o.remaining > 0
    requires
      var r := Sweep(o, o.remaining, s.book.On(o.side.Opposite()));
      && taker == AfterMatch(o, r.remaining)
      && swept == State(s.book.With(o.side.Opposite(), r.book), s.seqNo, s.tradeSeq + |r.fills|)
      && trades == TradeEvents(s.seqNo, s.tradeSeq, taker, r.fills)
    ensures Traded(s, o, swept, trades)
  {
    var b := Against(s.book, o);
    var r := Sweep(o, o.remaining, b);
    SortedIsBestFirst(o.side.Opposite(), b);
    SweepTradesWithFirst(o, b);
    SweepThins(o, o.remaining, b);
    TradeEventsShape(s.seqNo, s.tradeSeq, taker, r.fills);
    forall k: nat | k < |trades|
      ensures TellsTrade(trades[k], k, s, o, b)
    {
      TradeTold(s, o, b, k, taker, trades[k]);
    }
  }

  /** Insertion, in plain prices. */
  lemma {:induction false} InsertJoins(o: OrderRec, b: seq<OrderRec>)
    requires Sorted(o.side, b)
    ensures Joins(o, b, Insert(o, b), Rank(o, b))
  {
    InsertIsStable(o, b);
  }

  lemma {:induction false} RestJoins(s: State, o: OrderRec, t: OrderRec, remaining: int, out: Outcome)
    requires Sorted(o.side, Beside(s.book, o)) && out == Rest(s, t)
    requires t == o.(remaining := remaining, status := t.status)
    ensures Rests(s, o, remaining, Against(s.book, o), out.state)
    ensures |out.events| == 1 && Bears(out.events[0], s.seqNo, o) && SaysAccepted(out.events[0], remaining)
    ensures out.state.seqNo == s.seqNo && out.state.tradeSeq == s.tradeSeq
  {
    var resting := o.(remaining := remaining, status := 2);
    InsertJoins(resting, Beside(s.book, o));
    assert Joins(resting, Beside(s.book, o), Beside(out.state.book, o), Rank(resting, Beside(s.book, o)));
  }

  /** Settling, against the book before the match. */
  lemma {:induction false} SettleCloses(s: State, o: OrderRec, taker: OrderRec, swept: State, last: Outcome)
    requires BookOk(s.book) && o.quantity == o.remaining > 0 && 1 <= o.typ <= 4
    requires Beside(swept.book, o) == Beside(s.book, o) && swept.seqNo == s.seqNo
    requires taker == AfterMatch(o, Unfilled(o, Against(s.book, o))) && last == Settle(swept, taker)
    requires o.typ == 4 ==> Unfilled(o, Against(s.book, o)) == 0
    ensures |last.events| == 1 && Closed(s, o, last.state, last.events[0])
    ensures Against(last.state.book, o) == Against(swept.book, o)
    ensures last.state.seqNo == swept.seqNo && last.state.tradeSeq == swept.tradeSeq
    ensures o.typ == 4 ==> SaysFilled(last.events[0])
  {
    var left := Unfilled(o, Against(s.book, o));
    if left > 0 && o.typ == 1 {
      RestJoins(swept, o, taker, left, last);
      var p :| Joins(o.(remaining := left, status := 2), Beside(swept.book, o), Beside(last.state.book, o), p);
    }
  }

  /** Settling changes nothing that the trades have to do with. */
  lemma TradedStill(s: State, o: OrderRec, swept: State, s': State, trades: seq<RawEvent>)
    requires Traded(s, o, swept, trades) && Against(s'.book, o) == Against(swept.book, o)
    requires s'.seqNo == swept.seqNo && s'.tradeSeq == swept.tradeSeq
    ensures Traded(s, o, s', trades)
  {
  }

  lemma LastApart(trades: seq<RawEvent>, last: seq<RawEvent>, all: seq<RawEvent>)
    requires |last| == 1 && all == trades + last
    ensures all[..|all| - 1] == trades && all[|all| - 1] == last[0]
  {
  }

  lemma {:induction false} MatchAnswered(s: State, o: OrderRec, out: Outcome)
    requires BookOk(s.book) && o.quantity == o.remaining > 0 && 1 <= o.typ <= 4 && out == MatchAndSettle(s, o)
    requires o.typ == 4 ==> Unfilled(o, Against(s.book, o)) == 0
    ensures out.events != [] && Traded(s, o, out.state, out.events[..|out.events| - 1])
    ensures Closed(s, o, out.state, out.events[|out.events| - 1])
    ensures o.typ == 4 ==> SaysFilled(out.events[|out.events| - 1])
  {
    var taker, swept, trades, last := MatchParts(s, o, out);
    SortedIsBestFirst(o.side.Opposite(), Against(s.book, o));
    SweepLeaves(o, Against(s.book, o));
    MatchTrades(s, o, taker, swept, trades);
    SettleCloses(s, o, taker, swept, last);
    TradedStill(s, o, swept, last.state, trades);
    LastApart(trades, last.events, out.events);
  }

  // ----- The checks -----

  /** One look at the best opposite price tells whether any resting order meets the order's. */
  lemma {:induction false} CrossIff(book: Book, o: OrderRec)
    requires BookOk(book)
    ensures WouldCross(book, o) <==> Crosses(o, Against(book, o))
  {
    var b := Against(book, o);
    SortedIsBestFirst(o.side.Opposite(), b);
    if b != [] {
      assert Fits(o.side.Opposite(), b[0]);
      if i :| 0 <= i < |b| && Meets(o, b[i].price) {
        assert i == 0 || !Better(o.side.Opposite(), b[i].price, b[0].price);
      }
    }
  }

  lemma {:induction false} CanFillIff(book: Book, o: OrderRec)
    requires BookOk(book)
    ensures CanFill(book, o) <==> ShownEnough(o, Against(book, o))
  {
    var b := Against(book, o);
    SortedIsBestFirst(o.side.Opposite(), b);
    var k := DepthIsShown(o.side.Opposite(), b, 4096);
    if j: nat :| Shown(b, 4096, j) && Sum(b[..j]) >= o.remaining {
      ShownOnce(b, 4096, j, k);
    }
  }

  lemma {:induction false} ShownIsOffered(book: Book, o: OrderRec)
    requires BookOk(book) && o.typ == 4 && CanFill(book, o)
    ensures Unfilled(o, Against(book, o)) == 0
  {
    var b := Against(book, o);
    SortedIsBestFirst(o.side.Opposite(), b);
    OfferedIsReach(o, b);
    ReachesAll(o, b);
    assert b[..|b|] == b;
    DepthSeesAllIff(b, SNAPSHOT_DEPTH);
  }

  lemma {:induction false} RejectRefuses(s: State, o: OrderRec, reason: string, out: Outcome)
    requires out == Reject(s, o, reason)
    ensures Refused(s, o, if |reason| > 31 then reason[..31] else reason, out.state, out.events)
  {
  }

  // ----- The whole answer -----

  lemma {:induction false} PostOnlyAnswered(s: State, o: OrderRec, out: Outcome)
    requires BookOk(s.book) && o.typ == 5 && out == NewOrderStep(s, o)
    ensures Answered(s, o, out.state, out.events)
  {
    CrossIff(s.book, o);
    if WouldCross(s.book, o) {
      var reason := "post-only order would immediately match";
      RejectRefuses(s, o, reason, out);
      assert reason[..31] == "post-only order would immediate";
    } else {
      RestJoins(s, o, o, o.remaining, out);
    }
  }

  lemma {:induction false} NewOrderAnswered(s: State, o: OrderRec, out: Outcome)
    requires BookOk(s.book) && ValidOrder(o) && out == NewOrderStep(s, o)
    ensures Answered(s, o, out.state, out.events)
  {
    if o.typ == 5 {
      PostOnlyAnswered(s, o, out);
    } else if o.typ == 4 {
      CanFillIff(s.book, o);
      if CanFill(s.book, o) {
        ShownIsOffered(s.book, o);
        MatchAnswered(s, o, out);
      } else {
        RejectRefuses(s, o, "insufficient liquidity for FOK", out);
      }
    } else if 1 <= o.typ <= 3 {
      MatchAnswered(s, o, out);
    } else {
      RejectRefuses(s, o, "unknown order type", out);
    }
  }

  // ----- There is no other answer -----

  lemma {:induction false} TradesOnce(o: OrderRec, b: seq<OrderRec>, m: nat, n: nat)
    requires TradesWithFirst(o, b, m) && TradesWithFirst(o, b, n)
    ensures m == n
  {
    assert m < |b| ==> !Takes(o, b, m);
    assert n < |b| ==> !Takes(o, b, n);
  }

  lemma {:induction false} JoinsOnce(o: OrderRec, b: seq<OrderRec>, x: seq<OrderRec>, y: seq<OrderRec>, p: nat, q: nat)
    requires Joins(o, b, x, p) && Joins(o, b, y, q)
    ensures x == y
  {
    assert p < |b| ==> Better(o.side, o.price, b[p].price);
    assert q < |b| ==> Better(o.side, o.price, b[q].price);
  }

  lemma SidesMakeBook(x: Book, y: Book, o: OrderRec)
    requires Against(x, o) == Against(y, o) && Beside(x, o) == Beside(y, o)
    ensures x == y
  {
  }

  lemma {:induction false} RestsOnce(s: State, o: OrderRec, rem: int, b: seq<OrderRec>, x: State, y: State)
    requires Rests(s, o, rem, b, x) && Rests(s, o, rem, b, y)
    ensures x.book == y.book
  {
    var r := o.(remaining := rem, status := 2);
    var p :| Joins(r, Beside(s.book, o), Beside(x.book, o), p);
    var q :| Joins(r, Beside(s.book, o), Beside(y.book, o), q);
    JoinsOnce(r, Beside(s.book, o), Beside(x.book, o), Beside(y.book, o), p, q);
    SidesMakeBook(x.book, y.book, o);
  }

  lemma TradeToldOnce(e: RawEvent, f: RawEvent, k: nat, s: State, o: OrderRec, b: seq<OrderRec>)
    requires TellsTrade(e, k, s, o, b) && TellsTrade(f, k, s, o, b)
    ensures e == f
  {
  }

  lemma {:induction false} ToldOnce(es: seq<RawEvent>, fs: seq<RawEvent>, s: State, o: OrderRec, b: seq<OrderRec>)
    requires |es| == |fs| && AllTold(es, s, o, b) && AllTold(fs, s, o, b)
    ensures es == fs
  {
    forall k: nat | k < |es|
      ensures es[k] == fs[k]
    {
      TradeToldOnce(es[k], fs[k], k, s, o, b);
    }
  }

  lemma {:induction false} TradedOnce(s: State, o: OrderRec, x: State, y: State, es: seq<RawEvent>, fs: seq<RawEvent>)
    requires Traded(s, o, x, es) && Traded(s, o, y, fs)
    ensures es == fs && Against(x.book, o) == Against(y.book, o) && x.tradeSeq == y.tradeSeq && x.seqNo == y.seqNo
  {
    TradesOnce(o, Against(s.book, o), |es|, |fs|);
    ToldOnce(es, fs, s, o, Against(s.book, o));
  }

  lemma {:induction false} ClosedOnce(s: State, o: OrderRec, x: State, y: State, e: RawEvent, f: RawEvent)
    requires Closed(s, o, x, e) && Closed(s, o, y, f) && Against(x.book, o) == Against(y.book, o)
    ensures e == f && x.book == y.book
  {
    var left := Unfilled(o, Against(s.book, o));
    if left > 0 && o.typ == 1 {
      RestsOnce(s, o, left, Against(x.book, o), x, y);
    } else {
      SidesMakeBook(x.book, y.book, o);
    }
  }

  lemma {:induction false} AnsweredOnce(s: State, o: OrderRec, x: State, y: State, es: seq<RawEvent>, fs: seq<RawEvent>)
    requires Answered(s, o, x, es) && Answered(s, o, y, fs)
    ensures x == y && es == fs
  {
    if o.typ == 5 {
      if !Crosses(o, Against(s.book, o)) {
        RestsOnce(s, o, o.remaining, Against(s.book, o), x, y);
      }
      assert es == [es[0]] && fs == [fs[0]];
    } else if !(1 <= o.typ <= 4) || (o.typ == 4 && !ShownEnough(o, Against(s.book, o))) {
      assert es == [es[0]] && fs == [fs[0]];
    } else {
      var m, n := |es| - 1, |fs| - 1;
      TradedOnce(s, o, x, y, es[..m], fs[..n]);
      ClosedOnce(s, o, x, y, es[m], fs[n]);
      assert es == es[..m] + [es[m]] && fs == fs[..n] + [fs[n]];
    }
  }

  /** The description and the machine say the same: nothing but what the engine does answers it. */
  lemma {:induction false} AnsweredIff(s: State, o: OrderRec, s': State, es: seq<RawEvent>)
    requires BookOk(s.book) && ValidOrder(o)
    ensures Answered(s, o, s', es) <==> NewOrderStep(s, o) == Outcome(s', es)
  {
    var out := NewOrderStep(s, o);
    NewOrderAnswered(s, o, out);
    if Answered(s, o, s', es) {
      AnsweredOnce(s, o, s', out.state, es, out.events);
    }
  }

  // ----- Cancels -----

  /** No order has the id: one rejection, of no order. */
  predicate TellsUnknown(e: RawEvent, seqNo: nat) {
    e == RawEvent(4, 0, 0, 0, seqNo, 0, 0, 0, 0, 0, 0, 0, "cancel rejected: order not foun")
  }

  /** The `k`-th order of a side is gone, and nothing else. */
  ghost predicate Gone(b: seq<OrderRec>, k: nat, b': seq<OrderRec>) {
    k < |b| && b' == b[..k] + b[k + 1..]
  }

  ghost predicate CancelledOn(side: Side, k: nat, s: State, id: nat, s': State, es: seq<RawEvent>) {
    var b, b' := s.book.On(side), s'.book.On(side);
    && k < |b| && b[k].id == id && Gone(b, k, b') && s'.book.On(side.Opposite()) == s.book.On(side.Opposite())
    && s'.seqNo == s.seqNo && s'.tradeSeq == s.tradeSeq
    && |es| == 1 && Bears(es[0], s.seqNo, b[k]) && SaysCancelled(es[0], b[k].remaining)
  }

  ghost predicate Borne(id: nat, b: seq<OrderRec>) {
    exists k :: 0 <= k < |b| && b[k].id == id
  }

  ghost predicate CancelAnswered(s: State, id: nat, s': State, es: seq<RawEvent>) {
    if Borne(id, s.book.bids) || Borne(id, s.book.asks) then
      exists side, k :: CancelledOn(side, k, s, id, s', es)
    else
      s' == s && |es| == 1 && TellsUnknown(es[0], s.seqNo)
  }

  lemma {:induction false} BorneIff(id: nat, b: seq<OrderRec>)
    ensures Borne(id, b) <==> id in Ids(b)
  {
    if id in Ids(b) {
      var k := IdPosition(id, b);
    }
    if Borne(id, b) {
      var k :| 0 <= k < |b| && b[k].id == id;
      IdAt(b, k);
    }
  }

  lemma {:induction false} FoundCancelled(s: State, id: nat, side: Side, out: Outcome)
    requires BookOk(s.book) && id in Ids(s.book.On(side)) && out == CancelStep(s, id)
    ensures CancelAnswered(s, id, out.state, out.events)
  {
    var b := s.book.On(side);
    var k := IdPosition(id, b);
    DeleteAt(b, k);
    DeleteAbsent(id, s.book.On(side.Opposite()));
    assert CancelledOn(side, k, s, id, out.state, out.events);
  }

  lemma {:induction false} UnknownCancelled(s: State, id: nat, out: Outcome)
    requires id !in Ids(s.book.bids) && id !in Ids(s.book.asks) && out == CancelStep(s, id)
    ensures out.state == s && |out.events| == 1 && TellsUnknown(out.events[0], s.seqNo)
  {
    DeleteAbsent(id, s.book.bids);
    DeleteAbsent(id, s.book.asks);
    var reason := "cancel rejected: order not found";
    assert reason[..31] == "cancel rejected: order not foun";
  }

  lemma {:induction false} CancelIsAnswered(s: State, id: nat, out: Outcome)
    requires BookOk(s.book) && out == CancelStep(s, id)
    ensures CancelAnswered(s, id, out.state, out.events)
  {
    BorneIff(id, s.book.bids);
    BorneIff(id, s.book.asks);
    if id in Ids(s.book.bids) {
      FoundCancelled(s, id, Buy, out);
    } else if id in Ids(s.book.asks) {
      FoundCancelled(s, id, Sell, out);
    } else {
      UnknownCancelled(s, id, out);
    }
  }

  // ----- Commands and runs -----

  /** The answer to any command; `s` has the command's number already. */
  ghost predicate CommandAnswered(s: State, c: CommandRec, s': State, es: seq<RawEvent>) {
    match c
    case NewOrder(o, now) =>
      Answered(s, o.(timestamp := if o.timestamp == 0 then now else o.timestamp), s', es)
    case CancelOrder(id, _) => CancelAnswered(s, id, s', es)
    case OtherCommand => s' == s && es == []
  }

  lemma {:induction false} StepAnswers(s: State, c: CommandRec, out: Outcome)
    requires BookOk(s.book) && ValidCommand(c) && out == Step(s, c)
    ensures CommandAnswered(s.(seqNo := s.seqNo + 1), c, out.state, out.events)
  {
    StepHandles(s, c, out);
    HandledAnswers(s.(seqNo := s.seqNo + 1), c, out);
  }

  lemma {:induction false} HandledAnswers(s: State, c: CommandRec, out: Outcome)
    requires BookOk(s.book) && ValidCommand(c) && out == Handled(s, c)
    ensures CommandAnswered(s, c, out.state, out.events)
  {
    match c
    case NewOrder(o, now) => NewOrderAnswered(s, Stamped(o, now), out);
    case CancelOrder(id, _) => CancelIsAnswered(s, id, out);
    case OtherCommand =>
  }

  /** What the next command adds to a run. */
  lemma {:induction false} RunNext(cs: seq<CommandRec>, c: CommandRec, whole: seq<CommandRec>,
                                   before: Outcome, after: Outcome)
    returns (out: Outcome)
    requires whole == cs + [c] && before == Run(cs) && after == Run(whole)
    ensures out == Step(before.state, c) && after == Outcome(out.state, before.events + out.events)
  {
    RunExtends(cs, c);
    out := Step(before.state, c);
  }

  lemma PrefixGrows(cs: seq<CommandRec>, i: nat)
    requires i < |cs|
    ensures cs[..i + 1] == cs[..i] + [cs[i]]
  {
  }

  lemma {:induction false} CommandsCounted(cs: seq<CommandRec>, i: nat, before: Outcome)
    requires i <= |cs| && before == Run(cs[..i])
    ensures before.state.seqNo == i
  {
    StreamGrammar(cs[..i]);
  }

  lemma ValidPrefix(cs: seq<CommandRec>, i: nat)
    requires ValidRun(cs) && i <= |cs|
    ensures ValidRun(cs[..i])
  {
  }

  lemma {:induction false} PrefixKeepsBook(cs: seq<CommandRec>, i: nat, before: Outcome)
    requires ValidRun(cs) && i <= |cs| && before == Run(cs[..i])
    ensures BookOk(before.state.book)
  {
    ValidPrefix(cs, i);
    RunKeepsBook(cs[..i]);
  }

  /** Every command of every valid run is answered so, by the records that follow those of the commands before it. */
  lemma {:induction false} RunAnswers(cs: seq<CommandRec>, i: nat, before: Outcome, after: Outcome)
    returns (es: seq<RawEvent>)
    requires ValidRun(cs) && i < |cs| && before == Run(cs[..i]) && after == Run(cs[..i + 1])
    ensures after.events == before.events + es
    ensures CommandAnswered(before.state.(seqNo := i + 1), cs[i], after.state, es)
  {
    PrefixKeepsBook(cs, i, before);
    CommandsCounted(cs, i, before);
    PrefixGrows(cs, i);
    var out := RunNext(cs[..i], cs[i], cs[..i + 1], before, after);
    es := out.events;
    StepAnswers(before.state, cs[i], out);
  }
}
