/**
 Users. An order carries the user that submitted it and a cancel the user that sent it, but the engine is blind to
 both: relabelling users changes no record and nothing in the book but the labels. So a cancel goes through
 whoever sends it, and the records alone cannot say whose order is whose.
 */
module Users {
  import opened Types
  import opened FlatBook
  import opened EngineSpec
  import opened Blindness
  import opened Origins

  const USERS: Mask := Mask(true, false)

  /** A book without its users. */
  function UnsignedBook(book: Book): Book {
    HideBook(USERS, book)
  }

  lemma NoUserRecorded(es: seq<RawEvent>)
    ensures HideEvents(USERS, es) == es
  {
  }

  /** Two runs that differ only in who is said to send what have the same records, and the same book but for users. */
  lemma {:induction false} UsersDoNotMatter(cs: seq<CommandRec>, ds: seq<CommandRec>)
    requires HideRun(USERS, cs) == HideRun(USERS, ds)
    ensures Run(cs).events == Run(ds).events
    ensures HideState(USERS, Run(cs).state) == HideState(USERS, Run(ds).state)
  {
    RunIsBlind(USERS, cs);
    RunIsBlind(USERS, ds);
    NoUserRecorded(Run(cs).events);
    NoUserRecorded(Run(ds).events);
  }

  // ----- Whose order is cancelled -----

  /** The cancel goes through: its order is taken out and announced as cancelled. */
  predicate GoesThrough(s: State, c: CommandRec)
    requires c.CancelOrder?
  {
    var out := Step(s, c);
    |out.events| == 1 && out.events[0].evtType == EVT_CANCELLED && out.events[0].orderId == c.id
  }

  /**
   A cancel goes through exactly if its id is resting, whoever sends it. It is then the owner's exactly if it was sent
   by the user that submitted the id, which is for the callers to see to.
   */
  lemma {:induction false} CancelIsOwnersIff(cs: seq<CommandRec>, id: nat, user: nat, i: nat)
    requires ValidRun(cs) && i < |cs| && cs[i].NewOrder? && cs[i].order.id == id
    ensures
      var s := Run(cs).state;
      var found := FindInBook(id, s.book);
      && (GoesThrough(s, CancelOrder(id, user)) <==> found.Some?)
      && (found.Some? ==> (found.value.user == user <==> cs[i].order.user == user))
  {
    var book := Run(cs).state.book;
    FindIffPresent(id, book.bids);
    FindIffPresent(id, book.asks);
    var found := FindInBook(id, book);
    if found.Some? {
      RestingAsSubmitted(cs);
      var b := if Find(id, book.bids).Some? then book.bids else book.asks;
      assert found.value in b && Traceable(cs, found.value);
      var j :| Submits(cs, j, found.value);
      assert j == i;
    }
  }

  /** User 2 cancels the order of user 1. */
  lemma {:induction false} StrangerCancels()
    ensures
      var ask := OrderRec(1, 1, Sell, LIMIT, 100, 5, 5, STATUS_NEW, 7);
      var cs := [NewOrder(ask, 0), CancelOrder(1, 2)];
      && ValidRun(cs) && Run(cs[..1]).state.book.asks == [ask.(status := STATUS_OPEN)]
      && GoesThrough(Run(cs[..1]).state, cs[1]) && Run(cs).state.book == Book([], [])
  {
    var ask := OrderRec(1, 1, Sell, LIMIT, 100, 5, 5, STATUS_NEW, 7);
    var cs := [NewOrder(ask, 0), CancelOrder(1, 2)];
    assert cs[..1][..0] == [] && cs[..1][0] == cs[0];
    assert Run(cs[..1]) == Step(Start, cs[0]);
    assert Sweep(ask, 5, []) == Swept([], [], 5);
    assert Run(cs[..1]).state.book == Book([], [ask.(status := STATUS_OPEN)]);
    assert Find(1, [ask.(status := STATUS_OPEN)]) == Some(ask.(status := STATUS_OPEN));
  }
}
