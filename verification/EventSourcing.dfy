/**
 The event stream is a complete journal: a reader that sees nothing but the outbound records rebuilds the
 whole book, every field of every resting order but its user, and every place in its queue.
 */
module EventSourcing {
  import opened Types
  import opened FlatBook
  import opened EngineSpec
  import opened BookLaws
  import opened Blindness
  import opened Users

  /** The order an ACCEPTED record describes. */
  function AcceptedOrder(e: RawEvent): OrderRec {
    OrderRec(e.orderId, 0, if e.side == Buy.Code() then Buy else Sell, e.orderType, e.price,
             e.quantity, e.remaining, e.orderStatus, e.timestamp)
  }

  /** What a trade does to the list its maker is in; a maker that is used up leaves. */
  function Reduce(id: nat, qty: int, status: int, b: seq<OrderRec>): seq<OrderRec> {
    if b == [] then []
    else if b[0].id != id then [b[0]] + Reduce(id, qty, status, b[1..])
    else if b[0].remaining == qty then b[1..]
    else [b[0].(remaining := b[0].remaining - qty, status := status)] + b[1..]
  }

  /** One record read off the stream. */
  function Apply(book: Book, e: RawEvent): Book {
    if e.evtType == EVT_ACCEPTED then
      var o := AcceptedOrder(e);
      book.With(o.side, Insert(o, book.On(o.side)))
    else if e.evtType == EVT_TRADE then
      Book(Reduce(e.makerOrderId, e.quantity, e.orderStatus, book.bids),
           Reduce(e.makerOrderId, e.quantity, e.orderStatus, book.asks))
    else if e.evtType == EVT_CANCELLED then
      DeleteFromBook(e.orderId, book)
    else
      book
  }

  function ReplayFrom(book: Book, es: seq<RawEvent>): Book
    decreases |es|
  {
    if es == [] then book else ReplayFrom(Apply(book, es[0]), es[1..])
  }

  function Replay(es: seq<RawEvent>): Book {
    ReplayFrom(Start.book, es)
  }

  lemma {:induction false} ReplayAppend(book: Book, a: seq<RawEvent>, b: seq<RawEvent>)
    ensures ReplayFrom(book, a + b) == ReplayFrom(ReplayFrom(book, a), b)
    decreases |a|
  {
    if a == [] {
      assert a + b == b;
    } else {
      assert (a + b)[1..] == a[1..] + b;
      ReplayAppend(Apply(book, a[0]), a[1..], b);
    }
  }

  lemma {:induction false} ReduceAbsent(id: nat, qty: int, status: int, b: seq<OrderRec>)
    requires id !in Ids(b)
    ensures Reduce(id, qty, status, b) == b
  {
    if b != [] {
      ReduceAbsent(id, qty, status, b[1..]);
    }
  }

  /** The trade records of one sweep, in order, turn the swept side into what the sweep left. */
  lemma {:induction false} ReplaySweep(book: Book, side: Side, t: OrderRec, rem: int, taker: OrderRec,
                                       seqNo: nat, tradeSeq: nat)
    requires DistinctIds(book.On(side)) && Ids(book.bids) !! Ids(book.asks)
    ensures
      var r := Sweep(t, rem, book.On(side));
      ReplayFrom(book, TradeEvents(seqNo, tradeSeq, taker, r.fills)) == book.With(side, r.book)
    decreases |book.On(side)|
  {
    var b := book.On(side);
    var r := Sweep(t, rem, b);
    if r.fills != [] {
      var f := r.fills[0];
      var e := TradeEvent(seqNo, tradeSeq + 1, taker, f);
      var es := TradeEvents(seqNo, tradeSeq, taker, r.fills);
      assert es[0] == e && es[1..] == TradeEvents(seqNo, tradeSeq + 1, taker, r.fills[1..]);
      ReduceAbsent(f.maker.id, f.qty, f.maker.status, book.On(side.Opposite()));
      if rem < b[0].remaining {
        assert r.fills[1..] == [];
        assert Apply(book, e) == book.With(side, r.book);
      } else {
        assert Apply(book, e) == book.With(side, b[1..]);
        ReplaySweep(book.With(side, b[1..]), side, t, rem - b[0].remaining, taker, seqNo, tradeSeq + 1);
        assert r.fills[1..] == Sweep(t, rem - b[0].remaining, b[1..]).fills;
      }
    }
  }

  lemma {:induction false} ReplayOne(book: Book, e: RawEvent)
    ensures ReplayFrom(book, [e]) == Apply(book, e)
  {
    assert [e][1..] == [];
  }

  lemma {:induction false} ReplayRest(s: State, o: OrderRec)
    requires o.user == 0
    ensures ReplayFrom(s.book, Rest(s, o).events) == Rest(s, o).state.book
  {
    var resting := o.(status := STATUS_OPEN);
    var e := OrderEvent(EVT_ACCEPTED, s.seqNo, resting, "");
    assert AcceptedOrder(e) == resting;
    ReplayOne(s.book, e);
  }

  lemma {:induction false} ReplaySettle(s: State, taker: OrderRec)
    requires taker.id !in BookIds(s.book) && taker.user == 0
    ensures ReplayFrom(s.book, Settle(s, taker).events) == Settle(s, taker).state.book
  {
    if taker.remaining > 0 && taker.typ == LIMIT {
      ReplayRest(s, taker);
    } else {
      ReplayOne(s.book, Settle(s, taker).events[0]);
      DeleteAbsent(taker.id, s.book.bids);
      DeleteAbsent(taker.id, s.book.asks);
    }
  }

  /** The records of a match and its settlement. */
  lemma {:induction false} ReplayMatch(s: State, o: OrderRec)
    requires BookOk(s.book) && o.id !in BookIds(s.book) && o.user == 0
    ensures ReplayFrom(s.book, MatchAndSettle(s, o).events) == MatchAndSettle(s, o).state.book
  {
    var side := o.side.Opposite();
    var r := Sweep(o, o.remaining, s.book.On(side));
    var taker := AfterMatch(o, r.remaining);
    var swept := State(s.book.With(side, r.book), s.seqNo, s.tradeSeq + |r.fills|);
    ReplaySweep(s.book, side, o, o.remaining, taker, s.seqNo, s.tradeSeq);
    SweepKeepsBook(s.book, o);
    ReplaySettle(swept, taker);
    ReplayAppend(s.book, TradeEvents(s.seqNo, s.tradeSeq, taker, r.fills), Settle(swept, taker).events);
  }

  lemma {:induction false} ReplayNewOrder(s: State, o: OrderRec)
    requires BookOk(s.book) && o.id !in BookIds(s.book) && o.user == 0
    ensures ReplayFrom(s.book, NewOrderStep(s, o).events) == NewOrderStep(s, o).state.book
  {
    if o.typ == POST_ONLY && !WouldCross(s.book, o) {
      ReplayRest(s, o);
    } else if o.typ in {FOK, LIMIT, IOC, MARKET} && !(o.typ == FOK && !CanFill(s.book, o)) {
      ReplayMatch(s, o);
    } else {
      ReplayOne(s.book, NewOrderStep(s, o).events[0]);
    }
  }

  lemma {:induction false} ReplayCancel(s: State, id: nat)
    ensures ReplayFrom(s.book, CancelStep(s, id).events) == CancelStep(s, id).state.book
  {
    ReplayOne(s.book, CancelStep(s, id).events[0]);
    FindIffPresent(id, s.book.bids);
    FindIffPresent(id, s.book.asks);
  }

  lemma {:induction false} ReplayHandled(s: State, c: CommandRec, out: Outcome)
    requires BookOk(s.book) && out == Handled(s, c)
    requires c.NewOrder? ==> c.order.id !in BookIds(s.book) && c.order.user == 0
    ensures ReplayFrom(s.book, out.events) == out.state.book
  {
    match c
    case NewOrder(o, now) => ReplayNewOrder(s, Stamped(o, now));
    case CancelOrder(id, _) => ReplayCancel(s, id);
    case OtherCommand =>
  }

  /** One command: reading its records does to the book what the engine did. */
  lemma {:induction false} ReplayStep(s: State, c: CommandRec, out: Outcome)
    requires BookOk(s.book) && out == Step(s, c)
    requires c.NewOrder? ==> c.order.id !in BookIds(s.book) && c.order.user == 0
    ensures ReplayFrom(s.book, out.events) == out.state.book
  {
    StepHandles(s, c, out);
    ReplayHandled(s.(seqNo := s.seqNo + 1), c, out);
  }

  lemma {:induction false} JournalWithoutUsers(cs: seq<CommandRec>)
    requires ValidRun(cs) && forall i :: 0 <= i < |cs| && cs[i].NewOrder? ==> cs[i].order.user == 0
    ensures Replay(Run(cs).events) == Run(cs).state.book
  {
    if cs != [] {
      var before := cs[..|cs| - 1];
      var c := cs[|cs| - 1];
      assert before + [c] == cs;
      JournalWithoutUsers(before);
      RunKeepsBook(before);
      var out := Step(Run(before).state, c);
      ReplayStep(Run(before).state, c, out);
      ReplayAppend(Start.book, Run(before).events, out.events);
    }
  }

  /** Over a whole run, the journal alone gives back the book, but for users: no record names one. */
  lemma {:induction false} JournalIsComplete(cs: seq<CommandRec>)
    requires ValidRun(cs)
    ensures Replay(Run(cs).events) == UnsignedBook(Run(cs).state.book)
  {
    HiddenStaysValid(USERS, cs);
    JournalWithoutUsers(HideRun(USERS, cs));
    RunIsBlind(USERS, cs);
    NoUserRecorded(Run(cs).events);
  }
}
