/**
 The matching engine as a deterministic state machine over values: one command in, a new state and a list of
 outbound event records out. The class in Engine.dfy is proved to be this machine.
 */
module EngineSpec {
  import opened Types
  import opened FlatBook

  datatype Book = Book(bids: seq<OrderRec>, asks: seq<OrderRec>) {
    function On(side: Side): seq<OrderRec> {
      if side.Buy? then bids else asks
    }

    function With(side: Side, b: seq<OrderRec>): Book {
      if side.Buy? then this.(bids := b) else this.(asks := b)
    }
  }

  datatype State = State(book: Book, seqNo: nat, tradeSeq: nat)

  datatype Outcome = Outcome(state: State, events: seq<RawEvent>)

  const Start: State := State(Book([], []), 0, 0)

  /** The levels the fill-or-kill check looks at. */
  const SNAPSHOT_DEPTH: nat := 4096

  /** A slot keeps 31 characters of a reason. */
  const REASON_LIMIT: nat := 31

  // ----- Events -----

  function Clip(reason: string): string {
    if |reason| > REASON_LIMIT then reason[..REASON_LIMIT] else reason
  }

  function OrderEvent(kind: int, seqNo: nat, o: OrderRec, reason: string): RawEvent {
    RawEvent(kind, o.status, o.typ, o.side.Code(), seqNo, o.id, 0, 0,
             o.price, o.quantity, o.remaining, o.timestamp, Clip(reason))
  }

  function NoOrderEvent(kind: int, seqNo: nat, reason: string): RawEvent {
    RawEvent(kind, 0, 0, 0, seqNo, 0, 0, 0, 0, 0, 0, 0, Clip(reason))
  }

  /** Status is the maker's; side, type, remaining and time are the taker's after its whole sweep. */
  function TradeEvent(seqNo: nat, tradeId: nat, taker: OrderRec, f: Fill): RawEvent {
    RawEvent(EVT_TRADE, f.maker.status, taker.typ, taker.side.Code(), seqNo, taker.id, f.maker.id, tradeId,
             f.maker.price, f.qty, taker.remaining, taker.timestamp, "")
  }

  function TradeEvents(seqNo: nat, tradeSeq: nat, taker: OrderRec, fills: seq<Fill>): seq<RawEvent>
    decreases |fills|
  {
    if fills == [] then []
    else [TradeEvent(seqNo, tradeSeq + 1, taker, fills[0])] + TradeEvents(seqNo, tradeSeq + 1, taker, fills[1..])
  }

  // ----- Queries -----

  function BestPrice(b: seq<OrderRec>): int {
    if b == [] then 0 else b[0].price
  }

  predicate WouldCross(book: Book, o: OrderRec) {
    var best := BestPrice(book.On(o.side.Opposite()));
    best > 0 && WithinLimit(o, best)
  }

  function FrontLen(price: int, b: seq<OrderRec>): (n: nat)
    ensures n <= |b|
  {
    if b == [] || b[0].price != price then 0 else 1 + FrontLen(price, b[1..])
  }

  /** Quantity resting in the first `levels` price levels. */
  function DepthQty(b: seq<OrderRec>, levels: nat): int
    decreases levels
  {
    if b == [] || levels == 0 then 0
    else
      var n := FrontLen(b[0].price, b);
      Sum(b[..n]) + DepthQty(b[n..], levels - 1)
  }

  predicate CanFill(book: Book, o: OrderRec) {
    DepthQty(book.On(o.side.Opposite()), SNAPSHOT_DEPTH) >= o.remaining
  }

  // ----- Commands -----

  function MatchedStatus(t: OrderRec): int {
    if t.remaining == 0 then STATUS_FILLED
    else if t.quantity - t.remaining > 0 then STATUS_PARTIALLY_FILLED
    else t.status
  }

  /** The taker once the matching loop is done with it. */
  function AfterMatch(t: OrderRec, remaining: int): OrderRec {
    var t1 := t.(remaining := remaining);
    t1.(status := MatchedStatus(t1))
  }

  function Reject(s: State, o: OrderRec, reason: string): Outcome {
    Outcome(s, [OrderEvent(EVT_REJECTED, s.seqNo, o.(status := STATUS_REJECTED), reason)])
  }

  function Rest(s: State, o: OrderRec): Outcome {
    var resting := o.(status := STATUS_OPEN);
    Outcome(s.(book := s.book.With(o.side, Insert(resting, s.book.On(o.side)))),
            [OrderEvent(EVT_ACCEPTED, s.seqNo, resting, "")])
  }

  /** What becomes of a taker after its sweep: a LIMIT residual rests, FOK counts as filled, others are cancelled. */
  function Settle(s: State, taker: OrderRec): Outcome {
    if taker.remaining > 0 && taker.typ == LIMIT then
      Rest(s, taker)
    else if taker.remaining > 0 && taker.typ != FOK then
      Outcome(s, [OrderEvent(EVT_CANCELLED, s.seqNo, taker.(status := STATUS_CANCELLED), "")])
    else
      Outcome(s, [OrderEvent(EVT_FILLED, s.seqNo, taker, "")])
  }

  /** Sweep the other side, emit the trades, then settle what is left of the taker. */
  function MatchAndSettle(s: State, o: OrderRec): Outcome {
    var side := o.side.Opposite();
    var r := Sweep(o, o.remaining, s.book.On(side));
    var taker := AfterMatch(o, r.remaining);
    var last := Settle(State(s.book.With(side, r.book), s.seqNo, s.tradeSeq + |r.fills|), taker);
    Outcome(last.state, TradeEvents(s.seqNo, s.tradeSeq, taker, r.fills) + last.events)
  }

  function NewOrderStep(s: State, o: OrderRec): Outcome {
    if o.typ == POST_ONLY then
      if WouldCross(s.book, o) then Reject(s, o, "post-only order would immediately match") else Rest(s, o)
    else if o.typ == FOK && !CanFill(s.book, o) then
      Reject(s, o, "insufficient liquidity for FOK")
    else if o.typ in {FOK, LIMIT, IOC, MARKET} then
      MatchAndSettle(s, o)
    else
      Reject(s, o, "unknown order type")
  }

  /** Bids are looked up first; with distinct ids the order of lookup does not matter. */
  function FindInBook(id: nat, book: Book): Option<OrderRec> {
    if Find(id, book.bids).Some? then Find(id, book.bids) else Find(id, book.asks)
  }

  function DeleteFromBook(id: nat, book: Book): Book {
    Book(Delete(id, book.bids), Delete(id, book.asks))
  }

  function CancelStep(s: State, id: nat): Outcome {
    match FindInBook(id, s.book)
    case None =>
      Outcome(s, [NoOrderEvent(EVT_REJECTED, s.seqNo, "cancel rejected: order not found")])
    case Some(o) =>
      Outcome(s.(book := DeleteFromBook(id, s.book)),
              [OrderEvent(EVT_CANCELLED, s.seqNo, o.(status := STATUS_CANCELLED), "")])
  }

  /** The order as the engine takes it up: an unset timestamp is filled from the clock. */
  function Stamped(o: OrderRec, now: int): OrderRec {
    if o.timestamp == 0 then o.(timestamp := now) else o
  }

  /** What becomes of a command once it has its sequence number; an unknown command does nothing. */
  function Handled(s: State, c: CommandRec): Outcome {
    match c
    case NewOrder(o, now) => NewOrderStep(s, Stamped(o, now))
    case CancelOrder(id, _) => CancelStep(s, id)
    case OtherCommand => Outcome(s, [])
  }

  function Step(s: State, c: CommandRec): Outcome {
    Handled(s.(seqNo := s.seqNo + 1), c)
  }

  /** A step is the handling of the command under its new number. */
  lemma StepHandles(s: State, c: CommandRec, out: Outcome)
    requires out == Step(s, c)
    ensures out == Handled(s.(seqNo := s.seqNo + 1), c)
  {
    match c
    case NewOrder(_, _) =>
    case CancelOrder(_, _) =>
    case OtherCommand =>
  }

  /** What a matched order's step consists of. */
  lemma {:induction false} MatchParts(s: State, o: OrderRec, out: Outcome)
    returns (taker: OrderRec, swept: State, trades: seq<RawEvent>, last: Outcome)
    requires out == MatchAndSettle(s, o)
    ensures
      var r := Sweep(o, o.remaining, s.book.On(o.side.Opposite()));
      && taker == AfterMatch(o, r.remaining)
      && swept == State(s.book.With(o.side.Opposite(), r.book), s.seqNo, s.tradeSeq + |r.fills|)
      && trades == TradeEvents(s.seqNo, s.tradeSeq, taker, r.fills)
    ensures last == Settle(swept, taker) && out == Outcome(last.state, trades + last.events)
  {
    var r := Sweep(o, o.remaining, s.book.On(o.side.Opposite()));
    taker := AfterMatch(o, r.remaining);
    swept := State(s.book.With(o.side.Opposite(), r.book), s.seqNo, s.tradeSeq + |r.fills|);
    trades, last := TradeEvents(s.seqNo, s.tradeSeq, taker, r.fills), Settle(swept, taker);
  }

  /** A run from the empty engine; the last command is peeled off so that a longer run extends a shorter one. */
  function Run(cs: seq<CommandRec>): Outcome {
    if cs == [] then Outcome(Start, [])
    else
      var before := Run(cs[..|cs| - 1]);
      var last := Step(before.state, cs[|cs| - 1]);
      Outcome(last.state, before.events + last.events)
  }

  lemma {:induction false} RunExtends(cs: seq<CommandRec>, c: CommandRec)
    ensures Run(cs + [c]).state == Step(Run(cs).state, c).state
    ensures Run(cs + [c]).events == Run(cs).events + Step(Run(cs).state, c).events
  {
    assert (cs + [c])[..|cs|] == cs;
  }

  /** The records of a shorter run are the first of a longer one. */
  lemma {:induction false} RunPrefix(cs: seq<CommandRec>, k: nat)
    requires k <= |cs|
    ensures Run(cs[..k]).events <= Run(cs).events
  {
    if k < |cs| {
      RunPrefix(cs[..|cs| - 1], k);
      assert cs[..|cs| - 1][..k] == cs[..k];
    } else {
      assert cs[..k] == cs;
    }
  }

  // ----- What the engine asks of its callers -----

  predicate ValidOrder(o: OrderRec) {
    && o.quantity == o.remaining > 0
    && (o.typ in {LIMIT, POST_ONLY} ==> o.price > 0)
  }

  predicate ValidCommand(c: CommandRec) {
    c.NewOrder? ==> ValidOrder(c.order)
  }

  /** Well-formed orders whose ids are never used twice, as the gateway's counter guarantees. */
  ghost predicate ValidRun(cs: seq<CommandRec>) {
    && (forall i :: 0 <= i < |cs| ==> ValidCommand(cs[i]))
    && (forall i, j :: 0 <= i < j < |cs| && cs[i].NewOrder? && cs[j].NewOrder? ==> cs[i].order.id != cs[j].order.id)
  }
}
