/** Where resting orders come from: trading takes quantity from an order, and nothing else about it ever changes. */
module Origins {
  import opened Types
  import opened FlatBook
  import opened EngineSpec

  /**
   The `i`-th command submitted the order, and the order is still as it was submitted: only its remaining quantity and
   its status are its own, and its time if it came without one.
   */
  predicate Submits(cs: seq<CommandRec>, i: nat, o: OrderRec) {
    i < |cs| && cs[i].NewOrder? &&
    var given := cs[i].order;
    o == given.(remaining := o.remaining, status := o.status,
                timestamp := if given.timestamp == 0 then cs[i].now else given.timestamp)
  }

  ghost predicate Traceable(cs: seq<CommandRec>, o: OrderRec) {
    exists i :: Submits(cs, i, o)
  }

  ghost predicate AllTraceable(cs: seq<CommandRec>, b: seq<OrderRec>) {
    forall k :: 0 <= k < |b| ==> Traceable(cs, b[k])
  }

  lemma {:induction false} StillTraceable(cs: seq<CommandRec>, c: CommandRec, b: seq<OrderRec>)
    requires AllTraceable(cs, b)
    ensures AllTraceable(cs + [c], b)
  {
    forall k | 0 <= k < |b|
      ensures Traceable(cs + [c], b[k])
    {
      var i :| Submits(cs, i, b[k]);
      assert Submits(cs + [c], i, b[k]);
    }
  }

  lemma {:induction false} InsertTraceable(cs: seq<CommandRec>, o: OrderRec, b: seq<OrderRec>)
    requires AllTraceable(cs, b) && Traceable(cs, o)
    ensures AllTraceable(cs, Insert(o, b))
  {
    InsertAtRank(o, b);
  }

  lemma {:induction false} DeleteTraceable(cs: seq<CommandRec>, id: nat, b: seq<OrderRec>)
    requires AllTraceable(cs, b)
    ensures AllTraceable(cs, Delete(id, b))
    decreases |b|
  {
    if b != [] {
      assert AllTraceable(cs, b[1..]);
      DeleteTraceable(cs, id, b[1..]);
      assert Traceable(cs, b[0]);
    }
  }

  lemma {:induction false} SweepTraceable(cs: seq<CommandRec>, t: OrderRec, rem: int, b: seq<OrderRec>)
    requires AllTraceable(cs, b)
    ensures AllTraceable(cs, Sweep(t, rem, b).book)
    decreases |b|
  {
    if rem > 0 && b != [] && Reaches(t, b[0].price) {
      assert AllTraceable(cs, b[1..]);
      if rem >= b[0].remaining {
        SweepTraceable(cs, t, rem - b[0].remaining, b[1..]);
      } else {
        var i :| Submits(cs, i, b[0]);
        assert Submits(cs, i, AfterFill(b[0], rem));
      }
    }
  }

  ghost predicate BookTraceable(cs: seq<CommandRec>, book: Book) {
    AllTraceable(cs, book.bids) && AllTraceable(cs, book.asks)
  }

  lemma {:induction false} RestTraceable(cs: seq<CommandRec>, s: State, o: OrderRec, i: nat)
    requires BookTraceable(cs, s.book) && Submits(cs, i, o)
    ensures BookTraceable(cs, Rest(s, o).state.book)
  {
    var resting := o.(status := STATUS_OPEN);
    assert Submits(cs, i, resting);
    InsertTraceable(cs, resting, s.book.On(o.side));
  }

  lemma {:induction false} NewOrderTraceable(cs: seq<CommandRec>, s: State, o: OrderRec, i: nat)
    requires BookTraceable(cs, s.book) && Submits(cs, i, o)
    ensures BookTraceable(cs, NewOrderStep(s, o).state.book)
  {
    var side := o.side.Opposite();
    var r := Sweep(o, o.remaining, s.book.On(side));
    SweepTraceable(cs, o, o.remaining, s.book.On(side));
    RestTraceable(cs, s, o, i);
    RestTraceable(cs, State(s.book.With(side, r.book), s.seqNo, s.tradeSeq + |r.fills|), AfterMatch(o, r.remaining), i);
  }

  /** Every resting order is, but for what trading changes, one that was submitted. */
  lemma {:induction false} RestingAsSubmitted(cs: seq<CommandRec>)
    ensures BookTraceable(cs, Run(cs).state.book)
  {
    if cs != [] {
      var n := |cs| - 1;
      var s := Run(cs[..n]).state;
      RestingAsSubmitted(cs[..n]);
      assert cs[..n] + [cs[n]] == cs;
      StillTraceable(cs[..n], cs[n], s.book.bids);
      StillTraceable(cs[..n], cs[n], s.book.asks);
      match cs[n]
      case NewOrder(o, now) =>
        assert Submits(cs, n, Stamped(o, now));
        NewOrderTraceable(cs, s.(seqNo := s.seqNo + 1), Stamped(o, now), n);
      case CancelOrder(id, _) =>
        DeleteTraceable(cs, id, s.book.bids);
        DeleteTraceable(cs, id, s.book.asks);
      case OtherCommand =>
    }
  }
}
