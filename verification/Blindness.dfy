/**
 What the engine is blind to. An order carries the user that submitted it and a time; the engine reads no user at all,
 and of times only whether one is there. A mask hides users, or times, or both: the engine does to a run with
 something hidden what it does to the run itself, with the same hidden in books and records.
 */
module Blindness {
  import opened Types
  import opened FlatBook
  import opened EngineSpec

  datatype Mask = Mask(users: bool, times: bool)

  function Hide(m: Mask, o: OrderRec): OrderRec {
    o.(user := if m.users then 0 else o.user, timestamp := if m.times then 0 else o.timestamp)
  }

  function HideAll(m: Mask, b: seq<OrderRec>): (u: seq<OrderRec>)
    ensures |u| == |b|
  {
    if b == [] then [] else [Hide(m, b[0])] + HideAll(m, b[1..])
  }

  function HideBook(m: Mask, book: Book): Book {
    Book(HideAll(m, book.bids), HideAll(m, book.asks))
  }

  function HideState(m: Mask, s: State): State {
    s.(book := HideBook(m, s.book))
  }

  function HideFills(m: Mask, fills: seq<Fill>): seq<Fill> {
    if fills == [] then [] else [Fill(Hide(m, fills[0].maker), fills[0].qty)] + HideFills(m, fills[1..])
  }

  function HideSwept(m: Mask, r: Swept): Swept {
    Swept(HideFills(m, r.fills), HideAll(m, r.book), r.remaining)
  }

  /** Records carry times, but no users. */
  function HideEvent(m: Mask, e: RawEvent): RawEvent {
    e.(timestamp := if m.times then 0 else e.timestamp)
  }

  function HideEvents(m: Mask, es: seq<RawEvent>): (us: seq<RawEvent>)
    ensures |us| == |es| && forall i :: 0 <= i < |es| ==> us[i] == HideEvent(m, es[i])
  {
    seq(|es|, i requires 0 <= i < |es| => HideEvent(m, es[i]))
  }

  /** Where times are hidden, so is the clock. */
  function HideCommand(m: Mask, c: CommandRec): CommandRec {
    match c
    case NewOrder(o, now) => NewOrder(Hide(m, o), if m.times then 0 else now)
    case CancelOrder(id, user) => CancelOrder(id, if m.users then 0 else user)
    case OtherCommand => OtherCommand
  }

  function HideRun(m: Mask, cs: seq<CommandRec>): (us: seq<CommandRec>)
    ensures |us| == |cs| && forall i :: 0 <= i < |cs| ==> us[i] == HideCommand(m, cs[i])
  {
    seq(|cs|, i requires 0 <= i < |cs| => HideCommand(m, cs[i]))
  }

  /** `blind` is `out` with the same things hidden. */
  predicate Same(m: Mask, blind: Outcome, out: Outcome) {
    blind.state == HideState(m, out.state) && blind.events == HideEvents(m, out.events)
  }

  lemma {:induction false} HiddenSlices(m: Mask, b: seq<OrderRec>, k: nat)
    requires k <= |b|
    ensures HideAll(m, b)[..k] == HideAll(m, b[..k]) && HideAll(m, b)[k..] == HideAll(m, b[k..])
  {
    if k > 0 {
      HiddenSlices(m, b[1..], k - 1);
      assert b[..k][1..] == b[1..][..k - 1] && b[k..] == b[1..][k - 1..];
      assert HideAll(m, b)[..k] == [Hide(m, b[0])] + HideAll(m, b[1..])[..k - 1];
    }
  }

  // ----- The operations are blind -----

  lemma {:induction false} SideTail(m: Mask, o: OrderRec, rest: seq<OrderRec>)
    ensures HideAll(m, [o] + rest) == [Hide(m, o)] + HideAll(m, rest)
  {
    assert ([o] + rest)[1..] == rest;
  }

  lemma {:induction false} FillsTail(m: Mask, f: Fill, rest: seq<Fill>)
    ensures HideFills(m, [f] + rest) == [Fill(Hide(m, f.maker), f.qty)] + HideFills(m, rest)
  {
    assert ([f] + rest)[1..] == rest;
  }

  lemma EventsJoin(m: Mask, a: seq<RawEvent>, b: seq<RawEvent>)
    ensures HideEvents(m, a + b) == HideEvents(m, a) + HideEvents(m, b)
  {
  }

  lemma {:induction false} PartFillIsBlind(m: Mask, t: OrderRec, rem: int, b: seq<OrderRec>)
    requires rem > 0 && b != [] && Reaches(t, b[0].price) && rem < b[0].remaining
    ensures Sweep(Hide(m, t), rem, HideAll(m, b)) == HideSwept(m, Sweep(t, rem, b))
  {
    var maker := AfterFill(b[0], rem);
    assert HideAll(m, b)[1..] == HideAll(m, b[1..]);
    FillsTail(m, Fill(maker, rem), []);
    assert [Fill(maker, rem)] + [] == [Fill(maker, rem)];
    SideTail(m, maker, b[1..]);
  }

  lemma {:induction false} SweepIsBlind(m: Mask, t: OrderRec, rem: int, b: seq<OrderRec>)
    ensures Sweep(Hide(m, t), rem, HideAll(m, b)) == HideSwept(m, Sweep(t, rem, b))
    decreases |b|
  {
    if rem > 0 && b != [] && Reaches(t, b[0].price) {
      if rem < b[0].remaining {
        PartFillIsBlind(m, t, rem, b);
      } else {
        assert HideAll(m, b)[1..] == HideAll(m, b[1..]);
        SweepIsBlind(m, t, rem - b[0].remaining, b[1..]);
        FillsTail(m, Fill(AfterFill(b[0], b[0].remaining), b[0].remaining),
                  Sweep(t, rem - b[0].remaining, b[1..]).fills);
      }
    }
  }

  lemma {:induction false} InsertIsBlind(m: Mask, o: OrderRec, b: seq<OrderRec>)
    ensures Insert(Hide(m, o), HideAll(m, b)) == HideAll(m, Insert(o, b))
  {
    if b == [] || Key(o.side, o.price) < Key(o.side, b[0].price) {
      assert ([o] + b)[1..] == b;
    } else {
      InsertIsBlind(m, o, b[1..]);
      assert HideAll(m, b)[1..] == HideAll(m, b[1..]);
      assert Insert(o, b)[1..] == Insert(o, b[1..]);
    }
  }

  lemma {:induction false} DeleteIsBlind(m: Mask, id: nat, b: seq<OrderRec>)
    ensures Delete(id, HideAll(m, b)) == HideAll(m, Delete(id, b))
  {
    if b != [] {
      DeleteIsBlind(m, id, b[1..]);
      assert HideAll(m, b)[1..] == HideAll(m, b[1..]);
      assert ([b[0]] + Delete(id, b[1..]))[1..] == Delete(id, b[1..]);
    }
  }

  lemma {:induction false} FindIsBlind(m: Mask, id: nat, b: seq<OrderRec>)
    ensures Find(id, b).None? ==> Find(id, HideAll(m, b)) == None
    ensures Find(id, b).Some? ==> Find(id, HideAll(m, b)) == Some(Hide(m, Find(id, b).value))
  {
    if b != [] {
      FindIsBlind(m, id, b[1..]);
      assert HideAll(m, b)[1..] == HideAll(m, b[1..]);
    }
  }

  lemma {:induction false} SumIsBlind(m: Mask, b: seq<OrderRec>)
    ensures Sum(HideAll(m, b)) == Sum(b)
  {
    if b != [] {
      SumIsBlind(m, b[1..]);
      assert HideAll(m, b)[1..] == HideAll(m, b[1..]);
    }
  }

  lemma {:induction false} FrontLenIsBlind(m: Mask, price: int, b: seq<OrderRec>)
    ensures FrontLen(price, HideAll(m, b)) == FrontLen(price, b)
  {
    if b != [] {
      FrontLenIsBlind(m, price, b[1..]);
      assert HideAll(m, b)[1..] == HideAll(m, b[1..]);
    }
  }

  lemma {:induction false} DepthIsBlind(m: Mask, b: seq<OrderRec>, levels: nat)
    ensures DepthQty(HideAll(m, b), levels) == DepthQty(b, levels)
    decreases levels
  {
    if b != [] && levels > 0 {
      var n := FrontLen(b[0].price, b);
      FrontLenIsBlind(m, b[0].price, b);
      HiddenSlices(m, b, n);
      SumIsBlind(m, b[..n]);
      DepthIsBlind(m, b[n..], levels - 1);
    }
  }

  lemma {:induction false} TradesAreBlind(m: Mask, seqNo: nat, tradeSeq: nat, taker: OrderRec, fills: seq<Fill>)
    ensures
      TradeEvents(seqNo, tradeSeq, Hide(m, taker), HideFills(m, fills)) ==
      HideEvents(m, TradeEvents(seqNo, tradeSeq, taker, fills))
    ensures |HideFills(m, fills)| == |fills|
    decreases |fills|
  {
    if fills != [] {
      TradesAreBlind(m, seqNo, tradeSeq + 1, taker, fills[1..]);
      assert HideFills(m, fills)[1..] == HideFills(m, fills[1..]);
      EventsJoin(m, [TradeEvent(seqNo, tradeSeq + 1, taker, fills[0])],
                 TradeEvents(seqNo, tradeSeq + 1, taker, fills[1..]));
    }
  }

  lemma OnIsBlind(m: Mask, book: Book, side: Side, b: seq<OrderRec>)
    ensures HideBook(m, book).On(side) == HideAll(m, book.On(side))
    ensures HideBook(m, book.With(side, b)) == HideBook(m, book).With(side, HideAll(m, b))
  {
  }

  lemma {:induction false} RestIsBlind(m: Mask, s: State, o: OrderRec)
    ensures Same(m, Rest(HideState(m, s), Hide(m, o)), Rest(s, o))
  {
    var resting := o.(status := STATUS_OPEN);
    OnIsBlind(m, s.book, o.side, Insert(resting, s.book.On(o.side)));
    InsertIsBlind(m, resting, s.book.On(o.side));
  }

  lemma {:induction false} SettleIsBlind(m: Mask, s: State, taker: OrderRec, blind: Outcome, out: Outcome)
    requires blind == Settle(HideState(m, s), Hide(m, taker)) && out == Settle(s, taker)
    ensures Same(m, blind, out)
  {
    RestIsBlind(m, s, taker);
  }

  lemma {:induction false} MatchIsBlind(m: Mask, s: State, o: OrderRec, blind: Outcome, out: Outcome)
    requires blind == MatchAndSettle(HideState(m, s), Hide(m, o)) && out == MatchAndSettle(s, o)
    ensures Same(m, blind, out)
  {
    var side := o.side.Opposite();
    var r := Sweep(o, o.remaining, s.book.On(side));
    OnIsBlind(m, s.book, side, r.book);
    SweepIsBlind(m, o, o.remaining, s.book.On(side));
    var taker, swept, trades, last := MatchParts(s, o, out);
    var taker', swept', trades', last' := MatchParts(HideState(m, s), Hide(m, o), blind);
    TradesAreBlind(m, s.seqNo, s.tradeSeq, taker, r.fills);
    assert taker' == Hide(m, taker) && swept' == HideState(m, swept);
    SettleIsBlind(m, swept, taker, last', last);
    EventsJoin(m, trades, last.events);
  }

  lemma {:induction false} ChecksAreBlind(m: Mask, book: Book, o: OrderRec)
    ensures WouldCross(HideBook(m, book), Hide(m, o)) == WouldCross(book, o)
    ensures CanFill(HideBook(m, book), Hide(m, o)) == CanFill(book, o)
  {
    var side := o.side.Opposite();
    OnIsBlind(m, book, side, []);
    DepthIsBlind(m, book.On(side), SNAPSHOT_DEPTH);
  }

  lemma {:induction false} NewOrderIsBlind(m: Mask, s: State, o: OrderRec)
    ensures Same(m, NewOrderStep(HideState(m, s), Hide(m, o)), NewOrderStep(s, o))
  {
    ChecksAreBlind(m, s.book, o);
    if o.typ == POST_ONLY {
      RestIsBlind(m, s, o);
    } else if o.typ in {FOK, LIMIT, IOC, MARKET} {
      MatchIsBlind(m, s, o, MatchAndSettle(HideState(m, s), Hide(m, o)), MatchAndSettle(s, o));
    }
  }

  lemma {:induction false} CancelIsBlind(m: Mask, s: State, id: nat)
    ensures Same(m, CancelStep(HideState(m, s), id), CancelStep(s, id))
  {
    FindIsBlind(m, id, s.book.bids);
    FindIsBlind(m, id, s.book.asks);
    DeleteIsBlind(m, id, s.book.bids);
    DeleteIsBlind(m, id, s.book.asks);
  }

  lemma {:induction false} HandledIsBlind(m: Mask, s: State, c: CommandRec, t: State, blind: Outcome, out: Outcome)
    requires t == HideState(m, s) && blind == Handled(t, HideCommand(m, c)) && out == Handled(s, c)
    ensures Same(m, blind, out)
  {
    match c
    case NewOrder(o, now) =>
      assert Stamped(Hide(m, o), if m.times then 0 else now) == Hide(m, Stamped(o, now));
      NewOrderIsBlind(m, s, Stamped(o, now));
    case CancelOrder(id, _) =>
      CancelIsBlind(m, s, id);
    case OtherCommand =>
  }

  lemma {:induction false} StepIsBlind(m: Mask, s: State, c: CommandRec, t: State, blind: Outcome, out: Outcome)
    requires t == HideState(m, s) && blind == Step(t, HideCommand(m, c)) && out == Step(s, c)
    ensures Same(m, blind, out)
  {
    StepHandles(s, c, out);
    StepHandles(t, HideCommand(m, c), blind);
    HandledIsBlind(m, s.(seqNo := s.seqNo + 1), c, t.(seqNo := t.seqNo + 1), blind, out);
  }

  /** The engine is blind to users and times: hiding them before a run or after it is the same. */
  lemma {:induction false} RunIsBlind(m: Mask, cs: seq<CommandRec>)
    ensures Same(m, Run(HideRun(m, cs)), Run(cs))
  {
    if cs != [] {
      var before := cs[..|cs| - 1];
      RunIsBlind(m, before);
      var s, c := Run(before).state, cs[|cs| - 1];
      StepIsBlind(m, s, c, HideState(m, s), Step(HideState(m, s), HideCommand(m, c)), Step(s, c));
      EventsJoin(m, Run(before).events, Step(s, c).events);
      assert HideRun(m, cs)[..|cs| - 1] == HideRun(m, before);
    }
  }

  lemma {:induction false} HiddenStaysValid(m: Mask, cs: seq<CommandRec>)
    requires ValidRun(cs)
    ensures ValidRun(HideRun(m, cs))
  {
    var us := HideRun(m, cs);
    forall i | 0 <= i < |us|
      ensures us[i] == HideCommand(m, cs[i]) && ValidCommand(us[i])
    {
      assert ValidCommand(cs[i]);
    }
  }
}
