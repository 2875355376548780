/**
 What submitters can rely on over whole runs, in terms of what they submitted: nobody trades past a limit, makers are
 paid the price they asked, statuses tell who has traded, and at one price whoever came first is first in line.
 */
module Fairness {
  import opened Types
  import opened FlatBook
  import opened EngineSpec
  import opened BookLaws
  import opened Grammar
  import opened Depth
  import opened Origins
  import opened Answers

  // ----- One command -----

  /** `es` answers an order with this many trades, then one record that is no trade. */
  lemma {:induction false} TradesAreTold(s: State, o: OrderRec, s': State, es: seq<RawEvent>)
    requires Answered(s, o, s', es)
    ensures es != [] && es[|es| - 1].evtType != 5
    ensures |es| - 1 <= |Against(s.book, o)|
    ensures forall k: nat :: k < |es| - 1 ==>
              TellsTrade(es[k], k, s, o, Against(s.book, o)) && Takes(o, Against(s.book, o), k)
  {
    if |es| > 1 {
      forall k: nat | k < |es| - 1
        ensures TellsTrade(es[k], k, s, o, Against(s.book, o)) && Takes(o, Against(s.book, o), k)
      {
        assert es[..|es| - 1][k] == es[k];
      }
    }
  }

  // ----- Nobody trades past a limit -----

  /**
   The record is of a trade of the `i`-th command's order with that of the earlier `j`-th, from the other side: at the
   price the earlier one was submitted at, and, if the later one is a LIMIT order, within its own.
   */
  predicate FairTrade(cs: seq<CommandRec>, i: nat, j: nat, e: RawEvent) {
    && j < i < |cs| && cs[i].NewOrder? && cs[j].NewOrder?
    && var taker, maker := cs[i].order, cs[j].order;
      && e.orderId == taker.id && e.makerOrderId == maker.id && e.orderType == taker.typ
      && maker.side != taker.side && e.price == maker.price
      && (taker.typ == 1 ==> if taker.side.Buy? then e.price <= taker.price else e.price >= taker.price)
  }

  ghost predicate AllFair(cs: seq<CommandRec>, es: seq<RawEvent>) {
    forall k :: 0 <= k < |es| && es[k].evtType == 5 ==> exists i: nat, j: nat :: FairTrade(cs, i, j, es[k])
  }

  lemma {:induction false} StillFair(cs: seq<CommandRec>, c: CommandRec, es: seq<RawEvent>)
    requires AllFair(cs, es)
    ensures AllFair(cs + [c], es)
  {
    forall k | 0 <= k < |es| && es[k].evtType == 5
      ensures exists i: nat, j: nat :: FairTrade(cs + [c], i, j, es[k])
    {
      var i: nat, j: nat :| FairTrade(cs, i, j, es[k]);
      assert FairTrade(cs + [c], i, j, es[k]);
    }
  }

  lemma {:induction false} TradeIsFair(cs: seq<CommandRec>, n: nat, s: State, o: OrderRec, k: nat, e: RawEvent)
    requires n < |cs| && cs[n].NewOrder? && Submits(cs, n, o) && BookOk(s.book) && BookTraceable(cs[..n], s.book)
    requires TellsTrade(e, k, s, o, Against(s.book, o)) && Takes(o, Against(s.book, o), k)
    ensures exists i: nat, j: nat :: FairTrade(cs, i, j, e)
  {
    var maker := Against(s.book, o)[k];
    assert Traceable(cs[..n], maker);
    var j: nat :| Submits(cs[..n], j, maker);
    assert Fits(o.side.Opposite(), maker);
    assert FairTrade(cs, n, j, e);
  }

  lemma {:induction false} AnswerIsFair(cs: seq<CommandRec>, n: nat, s: State, s': State, es: seq<RawEvent>)
    requires n < |cs| && BookOk(s.book) && BookTraceable(cs[..n], s.book) && CommandAnswered(s, cs[n], s', es)
    ensures AllFair(cs, es)
  {
    if cs[n].NewOrder? {
      var o, now := cs[n].order, cs[n].now;
      var t := o.(timestamp := if o.timestamp == 0 then now else o.timestamp);
      TradesAreTold(s, t, s', es);
      forall k: nat | k < |es| && es[k].evtType == 5
        ensures exists i: nat, j: nat :: FairTrade(cs, i, j, es[k])
      {
        TradeIsFair(cs, n, s, t, k, es[k]);
      }
    }
  }

  lemma FairJoin(cs: seq<CommandRec>, a: seq<RawEvent>, b: seq<RawEvent>)
    requires AllFair(cs, a) && AllFair(cs, b)
    ensures AllFair(cs, a + b)
  {
  }

  /** Over every valid run, makers get the price they were submitted with and LIMIT takers keep theirs. */
  lemma {:induction false} TradesAreFair(cs: seq<CommandRec>)
    requires ValidRun(cs)
    ensures AllFair(cs, Run(cs).events)
  {
    if cs != [] {
      var n := |cs| - 1;
      assert cs[..n] + [cs[n]] == cs && cs[..n + 1] == cs;
      TradesAreFair(cs[..n]);
      StillFair(cs[..n], cs[n], Run(cs[..n]).events);
      var before := Run(cs[..n]);
      var es := RunAnswers(cs, n, before, Run(cs));
      RunKeepsBook(cs[..n]);
      RestingAsSubmitted(cs[..n]);
      AnswerIsFair(cs, n, before.state.(seqNo := n + 1), Run(cs).state, es);
      FairJoin(cs, before.events, es);
    }
  }

  // ----- What a status tells -----

  ghost predicate IsMaker(id: nat, es: seq<RawEvent>) {
    exists k :: 0 <= k < |es| && es[k].evtType == 5 && es[k].makerOrderId == id
  }

  /** Partially filled (3) if some trade names the order as its maker, open (2) otherwise. */
  ghost predicate StatusTells(o: OrderRec, es: seq<RawEvent>) {
    o.status == if IsMaker(o.id, es) then 3 else 2
  }

  ghost predicate AllTell(b: seq<OrderRec>, es: seq<RawEvent>) {
    forall i :: 0 <= i < |b| ==> StatusTells(b[i], es)
  }

  lemma {:induction false} MakerJoin(id: nat, a: seq<RawEvent>, b: seq<RawEvent>)
    ensures IsMaker(id, a + b) <==> IsMaker(id, a) || IsMaker(id, b)
  {
    if IsMaker(id, a) {
      var k :| 0 <= k < |a| && a[k].evtType == 5 && a[k].makerOrderId == id;
      assert (a + b)[k] == a[k];
    }
    if IsMaker(id, b) {
      var k :| 0 <= k < |b| && b[k].evtType == 5 && b[k].makerOrderId == id;
      assert (a + b)[|a| + k] == b[k];
    }
  }

  /** The makers of one order's trades are the first of the other side. */
  lemma {:induction false} MakersAreFirst(s: State, o: OrderRec, s': State, es: seq<RawEvent>, id: nat)
    requires Answered(s, o, s', es)
    ensures |es| - 1 <= |Against(s.book, o)|
    ensures IsMaker(id, es) <==> exists k :: 0 <= k < |es| - 1 && Against(s.book, o)[k].id == id
  {
    var b := Against(s.book, o);
    TradesAreTold(s, o, s', es);
    if k :| 0 <= k < |es| - 1 && b[k].id == id {
      assert TellsTrade(es[k], k, s, o, b);
    }
    if IsMaker(id, es) {
      var k :| 0 <= k < |es| && es[k].evtType == 5 && es[k].makerOrderId == id;
      assert TellsTrade(es[k], k, s, o, b);
    }
  }

  lemma {:induction false} IdsApart(b: seq<OrderRec>, i: nat, j: nat)
    requires DistinctIds(b) && i < |b| && j < |b| && i != j
    ensures b[i].id != b[j].id
  {
    if i == 0 {
      IdAt(b[1..], j - 1);
    } else if j == 0 {
      IdAt(b[1..], i - 1);
    } else {
      IdsApart(b[1..], i - 1, j - 1);
    }
  }

  lemma {:induction false} NotMakerIf(s: State, o: OrderRec, s': State, es: seq<RawEvent>, id: nat)
    requires Answered(s, o, s', es) && id !in Ids(Against(s.book, o))
    ensures !IsMaker(id, es)
  {
    MakersAreFirst(s, o, s', es, id);
    var b := Against(s.book, o);
    if k :| 0 <= k < |es| - 1 && b[k].id == id {
      IdAt(b, k);
    }
  }

  /** On the side traded with, those that have traded and still rest are marked, and no others. */
  lemma {:induction false} ThinnedTell(s: State, o: OrderRec, s': State, es: seq<RawEvent>, past: seq<RawEvent>)
    requires Answered(s, o, s', es) && BookOk(s.book) && AllTell(Against(s.book, o), past)
    requires es != [] && Thinned(o.remaining, Against(s.book, o), |es| - 1, Against(s'.book, o))
    ensures AllTell(Against(s'.book, o), past + es)
  {
    var b, b', n := Against(s.book, o), Against(s'.book, o), |es| - 1;
    forall i | 0 <= i < |b'|
      ensures StatusTells(b'[i], past + es)
    {
      var j := |b| - |b'| + i;
      MakerJoin(b[j].id, past, es);
      MakersAreFirst(s, o, s', es, b[j].id);
      assert StatusTells(b[j], past);
      if j >= n && IsMaker(b[j].id, es) {
        var k :| 0 <= k < n && b[k].id == b[j].id;
        IdsApart(b, k, j);
      }
    }
  }

  /** An answer with one record has no trades. */
  lemma {:induction false} OneRecordTells(s: State, o: OrderRec, s': State, es: seq<RawEvent>,
                                          b: seq<OrderRec>, past: seq<RawEvent>)
    requires Answered(s, o, s', es) && |es| == 1 && AllTell(b, past)
    ensures AllTell(b, past + es)
  {
    forall i | 0 <= i < |b|
      ensures StatusTells(b[i], past + es)
    {
      assert StatusTells(b[i], past);
      MakerJoin(b[i].id, past, es);
      MakersAreFirst(s, o, s', es, b[i].id);
    }
  }

  /** Orders on the side the new order is on make none of its trades. */
  lemma {:induction false} BesideTells(s: State, o: OrderRec, s': State, es: seq<RawEvent>, past: seq<RawEvent>)
    requires Answered(s, o, s', es) && BookOk(s.book) && AllTell(Beside(s.book, o), past)
    ensures AllTell(Beside(s.book, o), past + es)
  {
    var b := Beside(s.book, o);
    forall i | 0 <= i < |b|
      ensures StatusTells(b[i], past + es)
    {
      assert StatusTells(b[i], past);
      IdAt(b, i);
      NotMakerIf(s, o, s', es, b[i].id);
      MakerJoin(b[i].id, past, es);
    }
  }

  lemma {:induction false} JoinedTell(o: OrderRec, b: seq<OrderRec>, b': seq<OrderRec>, p: nat, es: seq<RawEvent>)
    requires Joins(o, b, b', p) && AllTell(b, es) && StatusTells(o, es)
    ensures AllTell(b', es)
  {
    forall i | 0 <= i < |b'|
      ensures StatusTells(b'[i], es)
    {
      assert b'[i] == if i < p then b[i] else if i == p then o else b[i - 1];
    }
  }

  lemma {:induction false} RestedTell(s: State, o: OrderRec, left: int, b: seq<OrderRec>, s': State, es: seq<RawEvent>)
    requires Rests(s, o, left, b, s') && AllTell(Beside(s.book, o), es) && !IsMaker(o.id, es)
    ensures AllTell(Beside(s'.book, o), es)
  {
    var r := o.(remaining := left, status := 2);
    var p :| Joins(r, Beside(s.book, o), Beside(s'.book, o), p);
    JoinedTell(r, Beside(s.book, o), Beside(s'.book, o), p, es);
  }

  ghost predicate BookTells(book: Book, es: seq<RawEvent>) {
    AllTell(book.bids, es) && AllTell(book.asks, es)
  }

  lemma {:induction false} NewOrderTells(s: State, o: OrderRec, s': State, es: seq<RawEvent>, past: seq<RawEvent>)
    requires Answered(s, o, s', es) && BookOk(s.book) && BookTells(s.book, past)
    requires o.id !in BookIds(s.book) && !IsMaker(o.id, past)
    ensures BookTells(s'.book, past + es)
  {
    BesideTells(s, o, s', es, past);
    NotMakerIf(s, o, s', es, o.id);
    MakerJoin(o.id, past, es);
    if Refused(s, o, es[0].reason, s', es) {
      OneRecordTells(s, o, s', es, Against(s.book, o), past);
    } else if o.typ == 5 {
      OneRecordTells(s, o, s', es, Against(s.book, o), past);
      RestedTell(s, o, o.remaining, Against(s.book, o), s', past + es);
    } else {
      MatchedTells(s, o, s', es, past);
    }
  }

  lemma SidesTell(book: Book, o: OrderRec, es: seq<RawEvent>)
    requires AllTell(Against(book, o), es) && AllTell(Beside(book, o), es)
    ensures BookTells(book, es)
  {
  }

  /** Once a match is closed, the side the order is on tells. */
  lemma {:induction false} ClosedTell(s: State, o: OrderRec, s': State, e: RawEvent, es: seq<RawEvent>)
    requires Closed(s, o, s', e) && AllTell(Beside(s.book, o), es) && !IsMaker(o.id, es)
    ensures AllTell(Beside(s'.book, o), es)
  {
    var left := Unfilled(o, Against(s.book, o));
    if left > 0 && o.typ == 1 {
      RestedTell(s, o, left, Against(s'.book, o), s', es);
    }
  }

  lemma {:induction false} MatchedTells(s: State, o: OrderRec, s': State, es: seq<RawEvent>, past: seq<RawEvent>)
    requires Answered(s, o, s', es) && BookOk(s.book) && AllTell(Against(s.book, o), past) && es != []
    requires Thinned(o.remaining, Against(s.book, o), |es| - 1, Against(s'.book, o))
    requires Closed(s, o, s', es[|es| - 1])
    requires AllTell(Beside(s.book, o), past + es) && !IsMaker(o.id, past + es)
    ensures BookTells(s'.book, past + es)
  {
    ThinnedTell(s, o, s', es, past);
    ClosedTell(s, o, s', es[|es| - 1], past + es);
    SidesTell(s'.book, o, past + es);
  }

  lemma {:induction false} CancelTells(s: State, id: nat, s': State, es: seq<RawEvent>, past: seq<RawEvent>)
    requires CancelAnswered(s, id, s', es) && BookTells(s.book, past)
    ensures BookTells(s'.book, past + es)
  {
    forall x: nat
      ensures IsMaker(x, past + es) <==> IsMaker(x, past)
    {
      MakerJoin(x, past, es);
      assert |es| == 1 && es[0].evtType != 5;
    }
    if Borne(id, s.book.bids) || Borne(id, s.book.asks) {
      var side, k :| CancelledOn(side, k, s, id, s', es);
      GoneTell(s.book.On(side), k, s'.book.On(side), past, past + es);
      SameTell(s.book.On(side.Opposite()), past, past + es);
    } else {
      SameTell(s.book.bids, past, past + es);
      SameTell(s.book.asks, past, past + es);
    }
  }

  ghost predicate SameMakers(a: seq<RawEvent>, b: seq<RawEvent>) {
    forall x: nat :: IsMaker(x, a) <==> IsMaker(x, b)
  }

  lemma {:induction false} SameTell(b: seq<OrderRec>, past: seq<RawEvent>, now: seq<RawEvent>)
    requires AllTell(b, past) && SameMakers(past, now)
    ensures AllTell(b, now)
  {
    forall i | 0 <= i < |b|
      ensures StatusTells(b[i], now)
    {
      assert StatusTells(b[i], past);
    }
  }

  lemma {:induction false} GoneTell(b: seq<OrderRec>, k: nat, b': seq<OrderRec>,
                                    past: seq<RawEvent>, now: seq<RawEvent>)
    requires Gone(b, k, b') && AllTell(b, past) && SameMakers(past, now)
    ensures AllTell(b', now)
  {
    forall i | 0 <= i < |b'|
      ensures StatusTells(b'[i], now)
    {
      assert b'[i] == b[if i < k then i else i + 1];
      assert StatusTells(b[if i < k then i else i + 1], past);
    }
  }

  /** An id not submitted before has made no trade. */
  lemma {:induction false} FreshIsNoMaker(cs: seq<CommandRec>, n: nat, es: seq<RawEvent>)
    requires ValidRun(cs) && n < |cs| && cs[n].NewOrder? && AllFair(cs[..n], es)
    ensures !IsMaker(cs[n].order.id, es)
  {
    forall k | 0 <= k < |es| && es[k].evtType == 5
      ensures es[k].makerOrderId != cs[n].order.id
    {
      var i: nat, j: nat :| FairTrade(cs[..n], i, j, es[k]);
      assert cs[..n][j] == cs[j];
    }
  }

  lemma {:induction false} CommandTells(s: State, c: CommandRec, s': State, es: seq<RawEvent>, past: seq<RawEvent>)
    requires CommandAnswered(s, c, s', es) && BookOk(s.book) && BookTells(s.book, past)
    requires c.NewOrder? ==> c.order.id !in BookIds(s.book) && !IsMaker(c.order.id, past)
    ensures BookTells(s'.book, past + es)
  {
    match c
    case NewOrder(o, now) =>
      NewOrderTells(s, o.(timestamp := if o.timestamp == 0 then now else o.timestamp), s', es, past);
    case CancelOrder(id, _) => CancelTells(s, id, s', es, past);
    case OtherCommand => assert past + es == past;
  }

  /** After every valid run, each resting order's status tells whether the run's trades have touched it. */
  lemma {:induction false} RestingStatusTells(cs: seq<CommandRec>)
    requires ValidRun(cs)
    ensures BookTells(Run(cs).state.book, Run(cs).events)
  {
    if cs != [] {
      var n := |cs| - 1;
      assert cs[..n + 1] == cs;
      ValidPrefix(cs, n);
      RestingStatusTells(cs[..n]);
      TradesAreFair(cs[..n]);
      RunKeepsBook(cs[..n]);
      var before := Run(cs[..n]);
      var es := RunAnswers(cs, n, before, Run(cs));
      if cs[n].NewOrder? {
        FreshIsNoMaker(cs, n, before.events);
        assert cs[n].order.id !in SubmittedIds(cs[..n]);
      }
      CommandTells(before.state.(seqNo := n + 1), cs[n], Run(cs).state, es, before.events);
    }
  }

  // ----- What a trade record's status tells -----

  /** Of the makers of a match, all but the last are used up; the last is exactly if it has left the book. */
  lemma {:induction false} UsedUpIff(o: OrderRec, b: seq<OrderRec>, n: nat, b': seq<OrderRec>, k: nat)
    requires TradesWithFirst(o, b, n) && Thinned(o.remaining, b, n, b') && k < n && Live(b) && DistinctIds(b)
    ensures Sum(b[..k + 1]) <= o.remaining <==> b[k].id !in Ids(b')
  {
    if k < n - 1 {
      assert Takes(o, b, n - 1);
      SumGrows(b, k + 1, n - 1);
    }
    if b[k].id in Ids(b') {
      var i := IdPosition(b[k].id, b');
      var j := |b| - |b'| + i;
      assert b'[i].id == b[j].id;
      if j != k {
        IdsApart(b, j, k);
      }
    }
    if Sum(b[..k + 1]) > o.remaining {
      IdAt(b', 0);
    }
  }

  lemma {:induction false} SumGrows(b: seq<OrderRec>, j: nat, k: nat)
    requires Live(b) && j <= k <= |b|
    ensures Sum(b[..j]) <= Sum(b[..k])
  {
    assert b[..k] == b[..j] + b[j..k];
    SumAppend(b[..j], b[j..k]);
    SumNonNegative(b[j..k]);
  }

  lemma {:induction false} AbsentIf(id: nat, b: seq<OrderRec>)
    requires forall i :: 0 <= i < |b| ==> b[i].id != id
    ensures id !in Ids(b)
  {
    if b != [] {
      AbsentIf(id, b[1..]);
    }
  }

  lemma {:induction false} JoinedIds(o: OrderRec, b: seq<OrderRec>, b': seq<OrderRec>, p: nat, id: nat)
    requires Joins(o, b, b', p) && id !in Ids(b) && id != o.id
    ensures id !in Ids(b')
  {
    forall i | 0 <= i < |b'|
      ensures b'[i].id != id
    {
      if i != p {
        IdAt(b, if i < p then i else i - 1);
      }
    }
    AbsentIf(id, b');
  }

  /** The side a new order rests on has none of its makers. */
  lemma {:induction false} MakerNotBeside(s: State, o: OrderRec, s': State, es: seq<RawEvent>, id: nat)
    requires BookOk(s.book) && id in Ids(Against(s.book, o)) && id != o.id && es != []
    requires Closed(s, o, s', es[|es| - 1])
    ensures id !in Ids(Beside(s'.book, o))
  {
    var left := Unfilled(o, Against(s.book, o));
    if left > 0 && o.typ == 1 {
      var r := o.(remaining := left, status := 2);
      var p :| Joins(r, Beside(s.book, o), Beside(s'.book, o), p);
      JoinedIds(r, Beside(s.book, o), Beside(s'.book, o), p, id);
    }
  }

  lemma {:induction false} MakerLeaves(s: State, o: OrderRec, s': State, es: seq<RawEvent>, k: nat)
    requires Answered(s, o, s', es) && BookOk(s.book) && o.id !in BookIds(s.book) && k < |es| - 1
    ensures es[k].orderStatus == if es[k].makerOrderId in BookIds(s'.book) then 3 else 4
  {
    var b := Against(s.book, o);
    TradesAreTold(s, o, s', es);
    assert TellsTrade(es[k], k, s, o, b);
    IdAt(b, k);
    UsedUpIff(o, b, |es| - 1, Against(s'.book, o), k);
    MakerNotBeside(s, o, s', es, b[k].id);
  }

  lemma {:induction false} StatusTold(s: State, c: CommandRec, s': State, es: seq<RawEvent>, k: nat)
    requires CommandAnswered(s, c, s', es) && BookOk(s.book) && k < |es| && es[k].evtType == 5
    requires c.NewOrder? ==> c.order.id !in BookIds(s.book)
    ensures es[k].orderStatus == if es[k].makerOrderId in BookIds(s'.book) then 3 else 4
  {
    if c.NewOrder? {
      var o := c.order.(timestamp := if c.order.timestamp == 0 then c.now else c.order.timestamp);
      TradesAreTold(s, o, s', es);
      MakerLeaves(s, o, s', es, k);
    }
  }

  /**
   Each trade record says filled (4) exactly if its maker rests no longer once the command is through, and partially
   filled (3) otherwise.
   */
  lemma {:induction false} TradeStatusTells(cs: seq<CommandRec>, i: nat, before: Outcome, after: Outcome,
                                            es: seq<RawEvent>, k: nat)
    requires ValidRun(cs) && i < |cs| && before == Run(cs[..i]) && after == Run(cs[..i + 1])
    requires after.events == before.events + es && k < |es| && es[k].evtType == 5
    ensures es[k].orderStatus == if es[k].makerOrderId in BookIds(after.state.book) then 3 else 4
  {
    ValidPrefix(cs, i);
    RunKeepsBook(cs[..i]);
    var answer := RunAnswers(cs, i, before, after);
    assert es == after.events[|before.events|..] == answer;
    if cs[i].NewOrder? {
      assert cs[i].order.id !in SubmittedIds(cs[..i]);
    }
    StatusTold(before.state.(seqNo := i + 1), cs[i], after.state, es, k);
  }

  // ----- First come, first served -----

  /** The one was submitted before the other. */
  ghost predicate Earlier(cs: seq<CommandRec>, x: OrderRec, y: OrderRec) {
    exists i: nat, j: nat :: i < j && Submits(cs, i, x) && Submits(cs, j, y)
  }

  ghost predicate Before(cs: seq<CommandRec>, side: Side, x: OrderRec, y: OrderRec) {
    Better(side, x.price, y.price) || (x.price == y.price && Earlier(cs, x, y))
  }

  /** Best price first, and at one price in the order of submission. */
  ghost predicate InLine(cs: seq<CommandRec>, side: Side, b: seq<OrderRec>) {
    forall p, q :: 0 <= p < q < |b| ==> Before(cs, side, b[p], b[q])
  }

  lemma {:induction false} StillInLine(cs: seq<CommandRec>, c: CommandRec, side: Side, b: seq<OrderRec>)
    requires InLine(cs, side, b)
    ensures InLine(cs + [c], side, b)
  {
    forall p, q | 0 <= p < q < |b|
      ensures Before(cs + [c], side, b[p], b[q])
    {
      assert Before(cs, side, b[p], b[q]);
      if b[p].price == b[q].price {
        var i: nat, j: nat :| i < j && Submits(cs, i, b[p]) && Submits(cs, j, b[q]);
        assert Submits(cs + [c], i, b[p]) && Submits(cs + [c], j, b[q]);
      }
    }
  }

  /** One order at two moments. */
  predicate SameOrder(x: OrderRec, y: OrderRec) {
    x == y.(remaining := x.remaining, status := x.status)
  }

  lemma {:induction false} SameBefore(cs: seq<CommandRec>, side: Side,
                                      x: OrderRec, y: OrderRec, x': OrderRec, y': OrderRec)
    requires Before(cs, side, x, y) && SameOrder(x', x) && SameOrder(y', y)
    ensures Before(cs, side, x', y')
  {
    if x.price == y.price {
      var i: nat, j: nat :| i < j && Submits(cs, i, x) && Submits(cs, j, y);
      assert Submits(cs, i, x') && Submits(cs, j, y');
    }
  }

  lemma {:induction false} ThinnedInLine(cs: seq<CommandRec>, side: Side, rem: int,
                                         b: seq<OrderRec>, n: nat, b': seq<OrderRec>)
    requires InLine(cs, side, b) && Thinned(rem, b, n, b')
    ensures InLine(cs, side, b')
  {
    var d := |b| - |b'|;
    forall p, q | 0 <= p < q < |b'|
      ensures Before(cs, side, b'[p], b'[q])
    {
      SameBefore(cs, side, b[d + p], b[d + q], b'[p], b'[q]);
    }
  }

  lemma {:induction false} GoneInLine(cs: seq<CommandRec>, side: Side, b: seq<OrderRec>, k: nat, b': seq<OrderRec>)
    requires InLine(cs, side, b) && Gone(b, k, b')
    ensures InLine(cs, side, b')
  {
    forall p, q | 0 <= p < q < |b'|
      ensures Before(cs, side, b'[p], b'[q])
    {
      assert b'[p] == b[if p < k then p else p + 1] && b'[q] == b[if q < k then q else q + 1];
    }
  }

  /** The newest order is later than all that rest. */
  lemma {:induction false} NewestIsLast(cs: seq<CommandRec>, n: nat, x: OrderRec, o: OrderRec)
    requires n < |cs| && Traceable(cs[..n], x) && Submits(cs, n, o)
    ensures Earlier(cs, x, o)
  {
    var i: nat :| Submits(cs[..n], i, x);
    assert Submits(cs, i, x);
  }

  lemma {:induction false} JoinedInLine(cs: seq<CommandRec>, n: nat, o: OrderRec,
                                        b: seq<OrderRec>, b': seq<OrderRec>, k: nat)
    requires n < |cs| && InLine(cs, o.side, b) && AllTraceable(cs[..n], b) && Submits(cs, n, o) && Joins(o, b, b', k)
    ensures InLine(cs, o.side, b')
  {
    forall p, q | 0 <= p < q < |b'|
      ensures Before(cs, o.side, b'[p], b'[q])
    {
      assert b'[p] == if p < k then b[p] else if p == k then o else b[p - 1];
      assert b'[q] == if q < k then b[q] else if q == k then o else b[q - 1];
      if q == k {
        NewestIsLast(cs, n, b[p], o);
      }
    }
  }

  ghost predicate BookInLine(cs: seq<CommandRec>, book: Book) {
    InLine(cs, Buy, book.bids) && InLine(cs, Sell, book.asks)
  }

  lemma {:induction false} RestedInLine(cs: seq<CommandRec>, n: nat, s: State, o: OrderRec, left: int,
                                        b: seq<OrderRec>, s': State)
    requires n < |cs| && Submits(cs, n, o) && AllTraceable(cs[..n], Beside(s.book, o)) && Rests(s, o, left, b, s')
    requires InLine(cs, o.side, Beside(s.book, o))
    ensures InLine(cs, o.side, Beside(s'.book, o))
  {
    var r := o.(remaining := left, status := 2);
    var p :| Joins(r, Beside(s.book, o), Beside(s'.book, o), p);
    assert Submits(cs, n, r);
    JoinedInLine(cs, n, r, Beside(s.book, o), Beside(s'.book, o), p);
  }

  lemma {:induction false} NewOrderInLine(cs: seq<CommandRec>, n: nat, s: State, o: OrderRec,
                                          s': State, es: seq<RawEvent>)
    requires n < |cs| && Submits(cs, n, o) && BookTraceable(cs[..n], s.book) && BookInLine(cs, s.book)
    requires Answered(s, o, s', es)
    ensures BookInLine(cs, s'.book)
  {
    if !Refused(s, o, es[0].reason, s', es) {
      if o.typ == 5 {
        RestedInLine(cs, n, s, o, o.remaining, Against(s.book, o), s');
      } else {
        var left := Unfilled(o, Against(s.book, o));
        ThinnedInLine(cs, o.side.Opposite(), o.remaining, Against(s.book, o), |es| - 1, Against(s'.book, o));
        if left > 0 && o.typ == 1 {
          RestedInLine(cs, n, s, o, left, Against(s'.book, o), s');
        }
      }
    }
  }

  lemma {:induction false} CommandInLine(cs: seq<CommandRec>, n: nat, s: State, s': State, es: seq<RawEvent>)
    requires n < |cs| && BookTraceable(cs[..n], s.book) && BookInLine(cs, s.book)
    requires CommandAnswered(s, cs[n], s', es)
    ensures BookInLine(cs, s'.book)
  {
    match cs[n]
    case NewOrder(o, now) =>
      NewOrderInLine(cs, n, s, o.(timestamp := if o.timestamp == 0 then now else o.timestamp), s', es);
    case CancelOrder(id, _) =>
      if Borne(id, s.book.bids) || Borne(id, s.book.asks) {
        var side, k :| CancelledOn(side, k, s, id, s', es);
        GoneInLine(cs, side, s.book.On(side), k, s'.book.On(side));
      }
    case OtherCommand =>
  }

  /** Price-time priority over every valid run: a better price comes first, and at one price the earlier submission. */
  lemma {:induction false} FirstComeFirstServed(cs: seq<CommandRec>)
    requires ValidRun(cs)
    ensures BookInLine(cs, Run(cs).state.book)
  {
    if cs != [] {
      var n := |cs| - 1;
      assert cs[..n] + [cs[n]] == cs && cs[..n + 1] == cs;
      ValidPrefix(cs, n);
      FirstComeFirstServed(cs[..n]);
      RestingAsSubmitted(cs[..n]);
      var before := Run(cs[..n]);
      StillInLine(cs[..n], cs[n], Buy, before.state.book.bids);
      StillInLine(cs[..n], cs[n], Sell, before.state.book.asks);
      var es := RunAnswers(cs, n, before, Run(cs));
      CommandInLine(cs, n, before.state.(seqNo := n + 1), Run(cs).state, es);
    }
  }
}
