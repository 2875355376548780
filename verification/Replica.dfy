/**
 A standby replica that works through the same commands, at other times. What it reproduces is everything but the
 times the engine itself has put on orders; records and book are an exact copy exactly if callers leave none for it to
 put on, and the book alone exactly if none such rests.
 */
module Replica {
  import opened Types
  import opened FlatBook
  import opened EngineSpec
  import opened Blindness
  import opened BookLaws
  import opened Origins

  const TIMES: Mask := Mask(false, true)

  /** The same command, taken up at another time. */
  predicate Reclocked(c: CommandRec, d: CommandRec) {
    if c.NewOrder? then d.NewOrder? && d.order == c.order else d == c
  }

  predicate SameCommands(cs: seq<CommandRec>, ds: seq<CommandRec>) {
    |cs| == |ds| && forall i :: 0 <= i < |cs| ==> Reclocked(cs[i], ds[i])
  }

  /** A replica has the same book, counters and records, but for times. */
  lemma {:induction false} ReplicaButTimes(cs: seq<CommandRec>, ds: seq<CommandRec>)
    requires SameCommands(cs, ds)
    ensures HideState(TIMES, Run(cs).state) == HideState(TIMES, Run(ds).state)
    ensures HideEvents(TIMES, Run(cs).events) == HideEvents(TIMES, Run(ds).events)
    ensures |Run(cs).events| == |Run(ds).events|
  {
    assert HideRun(TIMES, cs) == HideRun(TIMES, ds);
    RunIsBlind(TIMES, cs);
    RunIsBlind(TIMES, ds);
  }

  /** Every submitted order bears a time of its own. */
  predicate AllTimed(cs: seq<CommandRec>) {
    forall i :: 0 <= i < |cs| && cs[i].NewOrder? ==> cs[i].order.timestamp != 0
  }

  lemma {:induction false} TimedReplica(cs: seq<CommandRec>, ds: seq<CommandRec>)
    requires SameCommands(cs, ds) && AllTimed(cs)
    ensures Run(ds) == Run(cs)
  {
    if cs != [] {
      var n := |cs| - 1;
      TimedReplica(cs[..n], ds[..n]);
      TimedStep(Run(cs[..n]).state, cs[n], ds[n]);
    }
  }

  lemma {:induction false} TimedStep(s: State, c: CommandRec, d: CommandRec)
    requires Reclocked(c, d) && (c.NewOrder? ==> c.order.timestamp != 0)
    ensures Step(s, d) == Step(s, c)
  {
    StepHandles(s, c, Step(s, c));
    StepHandles(s, d, Step(s, d));
  }

  /** The last record of a new order bears its time. */
  lemma {:induction false} LastBearsTime(s: State, o: OrderRec, out: Outcome)
    requires out == NewOrderStep(s, o)
    ensures out.events != [] && out.events[|out.events| - 1].timestamp == o.timestamp
  {
    if o.typ in {FOK, LIMIT, IOC, MARKET} && !(o.typ == FOK && !CanFill(s.book, o)) {
      var taker, swept, trades, last := MatchParts(s, o, out);
    }
  }

  lemma {:induction false} StepBearsTime(s: State, c: CommandRec, out: Outcome)
    requires out == Step(s, c) && c.NewOrder?
    ensures out.events != []
    ensures out.events[|out.events| - 1].timestamp == Stamped(c.order, c.now).timestamp
  {
    StepHandles(s, c, out);
    LastBearsTime(s.(seqNo := s.seqNo + 1), Stamped(c.order, c.now), out);
  }

  /** A new order's time stands in the last record of the run up to it. */
  lemma {:induction false} RunBearsTime(cs: seq<CommandRec>, c: CommandRec, all: seq<RawEvent>)
    requires c.NewOrder? && all == Run(cs + [c]).events
    ensures all != [] && all[|all| - 1].timestamp == Stamped(c.order, c.now).timestamp
  {
    var s := Run(cs).state;
    RunExtends(cs, c);
    StepBearsTime(s, c, Step(s, c));
  }

  /** And there it stays. */
  lemma {:induction false} StampIsRecorded(cs: seq<CommandRec>, i: nat, upTo: seq<RawEvent>, all: seq<RawEvent>)
    requires i < |cs| && cs[i].NewOrder? && upTo == Run(cs[..i + 1]).events && all == Run(cs).events
    ensures 0 < |upTo| <= |all| && all[|upTo| - 1].timestamp == Stamped(cs[i].order, cs[i].now).timestamp
  {
    assert cs[..i] + [cs[i]] == cs[..i + 1];
    RunBearsTime(cs[..i], cs[i], upTo);
    RunPrefix(cs, i + 1);
  }

  /** A replica that takes everything up one tick later. */
  function Later(cs: seq<CommandRec>): (ds: seq<CommandRec>)
    ensures |ds| == |cs| && SameCommands(cs, ds)
    ensures forall i :: 0 <= i < |cs| && cs[i].NewOrder? ==> ds[i] == NewOrder(cs[i].order, cs[i].now + 1)
  {
    seq(|cs|, i requires 0 <= i < |cs| => if cs[i].NewOrder? then NewOrder(cs[i].order, cs[i].now + 1) else cs[i])
  }

  /** The later replica's record of an order that came without a time gives it away. */
  lemma {:induction false} UntimedReplica(cs: seq<CommandRec>, i: nat)
    requires i < |cs| && cs[i].NewOrder? && cs[i].order.timestamp == 0
    ensures Run(Later(cs)).events != Run(cs).events
  {
    var ds := Later(cs);
    ReplicaButTimes(cs[..i + 1], ds[..i + 1]);
    TimesApart(cs, ds, i, Run(cs[..i + 1]).events, Run(cs).events, Run(ds[..i + 1]).events, Run(ds).events);
  }

  lemma {:induction false} TimesApart(cs: seq<CommandRec>, ds: seq<CommandRec>, i: nat,
                                      upTo: seq<RawEvent>, all: seq<RawEvent>,
                                      upTo': seq<RawEvent>, all': seq<RawEvent>)
    requires i < |cs| == |ds| && cs[i].NewOrder? && cs[i].order.timestamp == 0
    requires ds[i] == NewOrder(cs[i].order, cs[i].now + 1) && |upTo| == |upTo'|
    requires upTo == Run(cs[..i + 1]).events && all == Run(cs).events
    requires upTo' == Run(ds[..i + 1]).events && all' == Run(ds).events
    ensures all' != all
  {
    StampIsRecorded(cs, i, upTo, all);
    StampIsRecorded(ds, i, upTo', all');
  }

  /** A replica is exact, whenever it takes the commands up, exactly if every submitted order bears a time. */
  lemma {:induction false} ReplicaIsExactIff(cs: seq<CommandRec>)
    ensures (forall ds | SameCommands(cs, ds) :: Run(ds) == Run(cs)) <==> AllTimed(cs)
  {
    if AllTimed(cs) {
      forall ds | SameCommands(cs, ds)
        ensures Run(ds) == Run(cs)
      {
        TimedReplica(cs, ds);
      }
    } else {
      var i :| 0 <= i < |cs| && cs[i].NewOrder? && cs[i].order.timestamp == 0;
      UntimedReplica(cs, i);
    }
  }

  // ----- The book alone -----

  lemma {:induction false} HiddenAt(m: Mask, b: seq<OrderRec>, k: nat)
    requires k < |b|
    ensures HideAll(m, b)[k] == Hide(m, b[k])
  {
    if k > 0 {
      HiddenAt(m, b[1..], k - 1);
    }
  }

  /** Orders with one id, in a run and in its replica, came by the same command. */
  lemma {:induction false} CameTogether(cs: seq<CommandRec>, ds: seq<CommandRec>, o: OrderRec, o': OrderRec)
    returns (i: nat)
    requires ValidRun(cs) && SameCommands(cs, ds) && o.id == o'.id
    requires Traceable(cs, o) && Traceable(ds, o')
    ensures Submits(cs, i, o) && Submits(ds, i, o')
  {
    i :| Submits(cs, i, o);
    var j: nat :| Submits(ds, j, o');
    assert Reclocked(cs[j], ds[j]);
    assert i == j;
  }

  /** What rests at some place of the book rests there in the replica's, but for its time. */
  lemma {:induction false} RestingAlike(cs: seq<CommandRec>, ds: seq<CommandRec>, side: Side,
                                        b: seq<OrderRec>, b': seq<OrderRec>, k: nat)
    returns (i: nat)
    requires ValidRun(cs) && SameCommands(cs, ds) && k < |b|
    requires b == Run(cs).state.book.On(side) && b' == Run(ds).state.book.On(side)
    ensures |b'| == |b| && Hide(TIMES, b'[k]) == Hide(TIMES, b[k])
    ensures Submits(cs, i, b[k]) && Submits(ds, i, b'[k])
  {
    ReplicaButTimes(cs, ds);
    OnIsBlind(TIMES, Run(cs).state.book, side, []);
    OnIsBlind(TIMES, Run(ds).state.book, side, []);
    assert HideAll(TIMES, b) == HideAll(TIMES, b');
    HiddenAt(TIMES, b, k);
    HiddenAt(TIMES, b', k);
    RestingAsSubmitted(cs);
    RestingAsSubmitted(ds);
    assert Traceable(cs, b[k]) && Traceable(ds, b'[k]);
    i := CameTogether(cs, ds, b[k], b'[k]);
  }

  /** Every order resting in the end was submitted with a time of its own. */
  ghost predicate RestingTimed(cs: seq<CommandRec>) {
    forall i :: 0 <= i < |cs| && cs[i].NewOrder? && cs[i].order.id in BookIds(Run(cs).state.book) ==>
      cs[i].order.timestamp != 0
  }

  lemma {:induction false} TimedSide(cs: seq<CommandRec>, ds: seq<CommandRec>, side: Side,
                                     b: seq<OrderRec>, b': seq<OrderRec>)
    requires ValidRun(cs) && SameCommands(cs, ds) && RestingTimed(cs)
    requires b == Run(cs).state.book.On(side) && b' == Run(ds).state.book.On(side)
    ensures b' == b
  {
    ReplicaButTimes(cs, ds);
    OnIsBlind(TIMES, Run(cs).state.book, side, []);
    OnIsBlind(TIMES, Run(ds).state.book, side, []);
    assert |HideAll(TIMES, b)| == |HideAll(TIMES, b')|;
    forall k | 0 <= k < |b|
      ensures b'[k] == b[k]
    {
      var i := RestingAlike(cs, ds, side, b, b', k);
      IdAt(b, k);
      assert cs[i].order.id in BookIds(Run(cs).state.book);
      assert Reclocked(cs[i], ds[i]);
    }
  }

  /** An order that came without a time and rests has another time in a later replica. */
  lemma {:induction false} UntimedRests(cs: seq<CommandRec>, i: nat)
    requires ValidRun(cs) && i < |cs| && cs[i].NewOrder? && cs[i].order.timestamp == 0
    requires cs[i].order.id in BookIds(Run(cs).state.book)
    ensures Run(Later(cs)).state.book != Run(cs).state.book
  {
    var ds := Later(cs);
    var side := if cs[i].order.id in Ids(Run(cs).state.book.bids) then Buy else Sell;
    var b, b' := Run(cs).state.book.On(side), Run(ds).state.book.On(side);
    var k := IdPosition(cs[i].order.id, b);
    var j := RestingAlike(cs, ds, side, b, b', k);
    assert j == i;
    assert b'[k] != b[k];
  }

  /** The book alone is exact, whenever a replica takes the commands up, exactly if all that rests bears a time. */
  lemma {:induction false} BookIsExactIff(cs: seq<CommandRec>)
    requires ValidRun(cs)
    ensures (forall ds | SameCommands(cs, ds) :: Run(ds).state.book == Run(cs).state.book) <==> RestingTimed(cs)
  {
    if RestingTimed(cs) {
      forall ds | SameCommands(cs, ds)
        ensures Run(ds).state.book == Run(cs).state.book
      {
        TimedSide(cs, ds, Buy, Run(cs).state.book.bids, Run(ds).state.book.bids);
        TimedSide(cs, ds, Sell, Run(cs).state.book.asks, Run(ds).state.book.asks);
      }
    } else {
      var i :| 0 <= i < |cs| && cs[i].NewOrder? && cs[i].order.id in BookIds(Run(cs).state.book)
        && cs[i].order.timestamp == 0;
      UntimedRests(cs, i);
    }
  }
}
