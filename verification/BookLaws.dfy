/** What every command keeps: price-time order, live quantities, distinct ids, and an uncrossed book. */
module BookLaws {
  import opened Types
  import opened FlatBook
  import opened EngineSpec

  ghost predicate Fits(side: Side, o: OrderRec) {
    o.side == side && o.remaining > 0 && o.price > 0
  }

  ghost predicate SideOk(side: Side, b: seq<OrderRec>) {
    && Sorted(side, b)
    && (forall i :: 0 <= i < |b| ==> Fits(side, b[i]))
    && DistinctIds(b)
  }

  ghost predicate Uncrossed(book: Book) {
    forall i, j :: 0 <= i < |book.bids| && 0 <= j < |book.asks| ==> book.bids[i].price < book.asks[j].price
  }

  ghost predicate BookOk(book: Book) {
    && SideOk(Buy, book.bids)
    && SideOk(Sell, book.asks)
    && Ids(book.bids) !! Ids(book.asks)
    && Uncrossed(book)
  }

  function BookIds(book: Book): set<nat> {
    Ids(book.bids) + Ids(book.asks)
  }

  // ----- One side -----

  lemma {:induction false} InsertIds(o: OrderRec, b: seq<OrderRec>)
    ensures Ids(Insert(o, b)) == Ids(b) + {o.id}
    ensures DistinctIds(b) && o.id !in Ids(b) ==> DistinctIds(Insert(o, b))
  {
    if Rank(o, b) > 0 {
      InsertIds(o, b[1..]);
    } else {
      assert ([o] + b)[1..] == b;
    }
  }

  lemma {:induction false} InsertKeepsSide(o: OrderRec, b: seq<OrderRec>)
    requires SideOk(o.side, b) && Fits(o.side, o) && o.id !in Ids(b)
    ensures SideOk(o.side, Insert(o, b))
  {
    InsertIds(o, b);
    InsertIsStable(o, b);
  }

  lemma {:induction false} DeleteIds(id: nat, b: seq<OrderRec>)
    ensures Ids(Delete(id, b)) == Ids(b) - {id}
    ensures DistinctIds(b) ==> DistinctIds(Delete(id, b))
  {
    if b != [] {
      DeleteIds(id, b[1..]);
      assert ([b[0]] + Delete(id, b[1..]))[1..] == Delete(id, b[1..]);
    }
  }

  lemma {:induction false} IdPosition(id: nat, b: seq<OrderRec>) returns (k: nat)
    requires id in Ids(b)
    ensures k < |b| && b[k].id == id
  {
    if b[0].id == id {
      k := 0;
    } else {
      k := IdPosition(id, b[1..]);
      k := k + 1;
    }
  }

  lemma CutKeeps(side: Side, b: seq<OrderRec>, k: nat, cut: seq<OrderRec>)
    requires Sorted(side, b) && (forall i :: 0 <= i < |b| ==> Fits(side, b[i]))
    requires k < |b| && cut == b[..k] + b[k + 1..]
    ensures Sorted(side, cut) && (forall i :: 0 <= i < |cut| ==> Fits(side, cut[i]) && cut[i] in b)
  {
  }

  lemma {:induction false} DeleteKeepsSide(id: nat, side: Side, b: seq<OrderRec>)
    requires SideOk(side, b)
    ensures SideOk(side, Delete(id, b))
    ensures forall i :: 0 <= i < |Delete(id, b)| ==> Delete(id, b)[i] in b
  {
    DeleteIds(id, b);
    if id in Ids(b) {
      var k := IdPosition(id, b);
      DeleteAt(b, k);
      CutKeeps(side, b, k, Delete(id, b));
    } else {
      DeleteAbsent(id, b);
    }
  }

  lemma {:induction false} SweepIds(t: OrderRec, rem: int, b: seq<OrderRec>)
    requires DistinctIds(b)
    ensures Ids(Sweep(t, rem, b).book) <= Ids(b) && DistinctIds(Sweep(t, rem, b).book)
    decreases |b|
  {
    if rem <= 0 || b == [] || !Reaches(t, b[0].price) {
    } else if rem < b[0].remaining {
      assert Sweep(t, rem, b).book[1..] == b[1..];
    } else {
      SweepIds(t, rem - b[0].remaining, b[1..]);
    }
  }

  /** `left` is `b` from position `k` on, with at most quantities reduced. */
  ghost predicate Reduces(side: Side, left: seq<OrderRec>, b: seq<OrderRec>, k: nat) {
    && |left| + k == |b|
    && forall i :: 0 <= i < |left| ==> Fits(side, left[i]) && left[i].price == b[k + i].price
  }

  lemma {:induction false} ReducesTail(side: Side, left: seq<OrderRec>, b: seq<OrderRec>, k: nat)
    requires b != [] && Reduces(side, left, b[1..], k)
    ensures Reduces(side, left, b, k + 1)
  {
    forall i | 0 <= i < |left|
      ensures left[i].price == b[k + 1 + i].price
    {
      assert b[1..][k + i] == b[k + 1 + i];
    }
  }

  lemma ReducesHead(side: Side, b: seq<OrderRec>, qty: int)
    requires b != [] && 0 < qty < b[0].remaining && forall i :: 0 <= i < |b| ==> Fits(side, b[i])
    ensures Reduces(side, [AfterFill(b[0], qty)] + b[1..], b, 0)
  {
  }

  /** A sweep leaves a suffix of the list, of which it has at most reduced the front order. */
  lemma {:induction false} SweepLeavesSuffix(t: OrderRec, rem: int, side: Side, b: seq<OrderRec>) returns (k: nat)
    requires forall i :: 0 <= i < |b| ==> Fits(side, b[i])
    ensures Reduces(side, Sweep(t, rem, b).book, b, k)
    decreases |b|
  {
    k := 0;
    if rem <= 0 || b == [] || !Reaches(t, b[0].price) {
    } else if rem < b[0].remaining {
      ReducesHead(side, b, rem);
    } else {
      k := SweepLeavesSuffix(t, rem - b[0].remaining, side, b[1..]);
      ReducesTail(side, Sweep(t, rem - b[0].remaining, b[1..]).book, b, k);
      k := k + 1;
    }
  }

  lemma {:induction false} ReducesSorted(side: Side, left: seq<OrderRec>, b: seq<OrderRec>, k: nat)
    requires Reduces(side, left, b, k) && Sorted(side, b)
    ensures Sorted(side, left)
  {
    forall i, j | 0 <= i < j < |left|
      ensures Key(side, left[i].price) <= Key(side, left[j].price)
    {
      assert left[i].price == b[k + i].price && left[j].price == b[k + j].price;
    }
  }

  lemma {:induction false} SweepKeepsSide(t: OrderRec, side: Side, b: seq<OrderRec>)
    requires SideOk(side, b)
    ensures SideOk(side, Sweep(t, t.remaining, b).book)
  {
    SweepIds(t, t.remaining, b);
    var k := SweepLeavesSuffix(t, t.remaining, side, b);
    ReducesSorted(side, Sweep(t, t.remaining, b).book, b, k);
  }

  // ----- Uncrossed, in terms of the two best prices -----

  lemma {:induction false} HeadsUncrossed(book: Book)
    requires Sorted(Buy, book.bids) && Sorted(Sell, book.asks)
    requires book.bids == [] || book.asks == [] || book.bids[0].price < book.asks[0].price
    ensures Uncrossed(book)
  {
    forall i, j | 0 <= i < |book.bids| && 0 <= j < |book.asks|
      ensures book.bids[i].price < book.asks[j].price
    {
      assert i == 0 || Key(Buy, book.bids[0].price) <= Key(Buy, book.bids[i].price);
      assert j == 0 || Key(Sell, book.asks[0].price) <= Key(Sell, book.asks[j].price);
    }
  }

  predicate NothingToCross(book: Book, o: OrderRec) {
    var other := book.On(o.side.Opposite());
    other == [] || !WithinLimit(o, other[0].price)
  }

  lemma {:induction false} InsertUncrossed(book: Book, o: OrderRec)
    requires Sorted(Buy, book.bids) && Sorted(Sell, book.asks) && Uncrossed(book) && NothingToCross(book, o)
    ensures Uncrossed(book.With(o.side, Insert(o, book.On(o.side))))
  {
    var own := book.On(o.side);
    InsertIsStable(o, own);
    assert Insert(o, own)[0] == o || (own != [] && Insert(o, own)[0] == own[0]);
    HeadsUncrossed(book.With(o.side, Insert(o, own)));
  }

  lemma {:induction false} JoinKeepsBook(book: Book, o: OrderRec, own: seq<OrderRec>)
    requires BookOk(book) && Fits(o.side, o) && o.id !in BookIds(book) && NothingToCross(book, o)
    requires own == Insert(o, book.On(o.side))
    ensures BookOk(book.With(o.side, own)) && BookIds(book.With(o.side, own)) == BookIds(book) + {o.id}
  {
    InsertIds(o, book.On(o.side));
    InsertKeepsSide(o, book.On(o.side));
    InsertUncrossed(book, o);
  }

  /** Resting an order that crosses nothing on the other side. */
  lemma {:induction false} RestKeepsBook(s: State, o: OrderRec)
    requires BookOk(s.book) && Fits(o.side, o) && o.id !in BookIds(s.book)
    requires NothingToCross(s.book, o)
    ensures BookOk(Rest(s, o).state.book)
    ensures BookIds(Rest(s, o).state.book) == BookIds(s.book) + {o.id}
  {
    var resting := o.(status := STATUS_OPEN);
    JoinKeepsBook(s.book, resting, Insert(resting, s.book.On(o.side)));
  }

  lemma {:induction false} ReducesUncrossed(book: Book, side: Side, left: seq<OrderRec>, k: nat)
    requires Uncrossed(book) && Reduces(side, left, book.On(side), k)
    ensures Uncrossed(book.With(side, left))
  {
    forall i | 0 <= i < |left|
      ensures left[i].price == book.On(side)[k + i].price
    {
    }
  }

  /** Sweeping only thins out the other side. */
  lemma {:induction false} SweepKeepsBook(book: Book, o: OrderRec)
    requires BookOk(book)
    ensures
      var left := Sweep(o, o.remaining, book.On(o.side.Opposite())).book;
      BookOk(book.With(o.side.Opposite(), left)) && BookIds(book.With(o.side.Opposite(), left)) <= BookIds(book)
  {
    var side := o.side.Opposite();
    SweepKeepsSide(o, side, book.On(side));
    SweepIds(o, o.remaining, book.On(side));
    var k := SweepLeavesSuffix(o, o.remaining, side, book.On(side));
    ReducesUncrossed(book, side, Sweep(o, o.remaining, book.On(side)).book, k);
  }

  lemma {:induction false} MatchKeepsBook(s: State, o: OrderRec)
    requires BookOk(s.book) && ValidOrder(o) && o.id !in BookIds(s.book)
    ensures BookOk(MatchAndSettle(s, o).state.book)
    ensures BookIds(MatchAndSettle(s, o).state.book) <= BookIds(s.book) + {o.id}
  {
    var side := o.side.Opposite();
    var r := Sweep(o, o.remaining, s.book.On(side));
    var s1 := State(s.book.With(side, r.book), s.seqNo, s.tradeSeq + |r.fills|);
    SweepKeepsBook(s.book, o);
    if r.remaining > 0 && o.typ == LIMIT {
      SweepStops(o, o.remaining, s.book.On(side));
      RestKeepsBook(s1, AfterMatch(o, r.remaining));
    }
  }

  lemma {:induction false} DeleteKeepsBook(id: nat, book: Book)
    requires BookOk(book)
    ensures BookOk(DeleteFromBook(id, book)) && BookIds(DeleteFromBook(id, book)) == BookIds(book) - {id}
  {
    DeleteKeepsSide(id, Buy, book.bids);
    DeleteKeepsSide(id, Sell, book.asks);
    DeleteIds(id, book.bids);
    DeleteIds(id, book.asks);
  }

  lemma {:induction false} CancelKeepsBook(s: State, id: nat)
    requires BookOk(s.book)
    ensures BookOk(CancelStep(s, id).state.book)
    ensures BookIds(CancelStep(s, id).state.book) == BookIds(s.book) - {id}
  {
    DeleteKeepsBook(id, s.book);
    FindIffPresent(id, s.book.bids);
    FindIffPresent(id, s.book.asks);
  }

  lemma {:induction false} NewOrderKeepsBook(s: State, o: OrderRec)
    requires BookOk(s.book) && ValidOrder(o) && o.id !in BookIds(s.book)
    ensures BookOk(NewOrderStep(s, o).state.book)
    ensures BookIds(NewOrderStep(s, o).state.book) <= BookIds(s.book) + {o.id}
  {
    if o.typ == POST_ONLY {
      if !WouldCross(s.book, o) {
        RestKeepsBook(s, o);
      }
    } else if o.typ in {FOK, LIMIT, IOC, MARKET} {
      MatchKeepsBook(s, o);
    }
  }

  lemma {:induction false} HandledKeepsBook(s: State, c: CommandRec, out: Outcome)
    requires BookOk(s.book) && ValidCommand(c) && out == Handled(s, c)
    requires c.NewOrder? ==> c.order.id !in BookIds(s.book)
    ensures BookOk(out.state.book)
    ensures BookIds(out.state.book) <= BookIds(s.book) + if c.NewOrder? then {c.order.id} else {}
  {
    match c
    case NewOrder(o, now) => NewOrderKeepsBook(s, Stamped(o, now));
    case CancelOrder(id, _) => CancelKeepsBook(s, id);
    case OtherCommand =>
  }

  /** The one-step invariant. */
  lemma {:induction false} StepKeepsBook(s: State, c: CommandRec, out: Outcome)
    requires BookOk(s.book) && ValidCommand(c) && out == Step(s, c)
    requires c.NewOrder? ==> c.order.id !in BookIds(s.book)
    ensures BookOk(out.state.book)
    ensures BookIds(out.state.book) <= BookIds(s.book) + if c.NewOrder? then {c.order.id} else {}
  {
    HandledKeepsBook(s.(seqNo := s.seqNo + 1), c, out);
  }

  // ----- Over whole runs -----

  ghost function SubmittedIds(cs: seq<CommandRec>): set<nat> {
    set i | 0 <= i < |cs| && cs[i].NewOrder? :: cs[i].order.id
  }

  /** Only submitted ids ever rest, so a valid run never reuses the id of a resting order. */
  lemma {:induction false} RunKeepsBook(cs: seq<CommandRec>)
    requires ValidRun(cs)
    ensures BookOk(Run(cs).state.book)
    ensures BookIds(Run(cs).state.book) <= SubmittedIds(cs)
  {
    if cs != [] {
      var before := cs[..|cs| - 1];
      var c := cs[|cs| - 1];
      assert before + [c] == cs;
      RunKeepsBook(before);
      StepKeepsBook(Run(before).state, c, Step(Run(before).state, c));
      assert SubmittedIds(before) <= SubmittedIds(cs);
    }
  }

  /** The book is never crossed: best bid below best ask after every valid run. */
  lemma {:induction false} NeverCrossed(cs: seq<CommandRec>)
    requires ValidRun(cs)
    ensures
      var book := Run(cs).state.book;
      book.bids != [] && book.asks != [] ==> BestPrice(book.bids) < BestPrice(book.asks)
  {
    RunKeepsBook(cs);
  }
}
