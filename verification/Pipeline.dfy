/**
 The whole pipeline: any number of submitters, the command ring, the engine, the event ring and one consumer, in any
 interleaving of their single steps. The engine computes a command's events the moment it has popped it, pushes them
 one by one while it may have to wait for room, and fetches nothing until they are out.
 */
module Pipeline {
  import opened Types
  import opened FlatBook
  import opened EngineSpec
  import opened EventRecord
  import opened EventSourcing
  import opened Users
  import In = MpscRing
  import Out = SpscRing

  datatype Sys = Sys(
    inbound: In.Ring<CommandRec>, engine: State, pending: seq<RawEvent>, outbound: Out.Ring<Cell>)

  datatype Act =
    | Submit(command: In.Move<CommandRec>)  // a submitter's step
    | Fetch(fetch: In.Move<CommandRec>)     // the engine's step as consumer of commands
    | Push(push: Out.Move<Cell>)            // the engine's step as producer of events
    | Poll(poll: Out.Move<Cell>)            // the outside consumer's step

  function BlankSlot(): (r: seq<Cell>)
    ensures |r| == WIDTH
  {
    seq(WIDTH, i requires 0 <= i => Zero(i))
  }

  function Initial(inLog2: nat, outLog2: nat, threads: nat): Sys {
    Sys(In.Initial(inLog2, threads), Start, [], Out.Initial(outLog2, BlankSlot(), true))
  }

  ghost predicate WellFormed(s: Sys) {
    In.Inv(s.inbound) && In.Ordered(s.inbound) && Out.Inv(s.outbound) && s.outbound.width == WIDTH
  }

  /** A pop that completes hands the engine its next command. */
  function Fetched(s: Sys, inbound: In.Ring<CommandRec>): Sys {
    if |inbound.popped| > |s.inbound.popped| && inbound.popped[|inbound.popped| - 1].Some? then
      var out := Step(s.engine, inbound.popped[|inbound.popped| - 1].value);
      s.(inbound := inbound, engine := out.state, pending := out.events)
    else
      s.(inbound := inbound)
  }

  /** The engine only ever starts pushing its next pending event, by the push operation that writes it. */
  ghost predicate MayPush(s: Sys, m: Out.Move<Cell>) {
    m.Begin? ==> s.pending != [] && exists call: PushCall :: call.Event() == s.pending[0] && m.item == call.Filling()
  }

  ghost function Pushed(s: Sys, outbound: Out.Ring<Cell>): Sys {
    s.(outbound := outbound,
       pending := if |outbound.pushed| > |s.outbound.pushed| && s.pending != [] then s.pending[1..] else s.pending)
  }

  ghost function Next(s: Sys, a: Act): Sys
    requires WellFormed(s)
  {
    match a
    case Submit(m) => if In.ByProducer(m) then s.(inbound := In.Next(s.inbound, m)) else s
    case Fetch(m) =>
      if !In.ByProducer(m) && s.pending == [] && s.outbound.producer.Idle? then Fetched(s, In.Next(s.inbound, m)) else s
    case Push(m) => if Out.ByProducer(m) && MayPush(s, m) then Pushed(s, Out.Next(s.outbound, m)) else s
    case Poll(m) => if !Out.ByProducer(m) then s.(outbound := Out.Next(s.outbound, m)) else s
  }

  // ----- The invariant -----

  function EncodeAll(es: seq<RawEvent>): (r: seq<seq<Cell>>)
    ensures |r| == |es|
    ensures forall i :: 0 <= i < |es| ==> r[i] == Encode(es[i])
  {
    seq(|es|, i requires 0 <= i < |es| => Encode(es[i]))
  }

  /** The commands the engine has taken. */
  ghost function TakenBy(s: Sys): seq<CommandRec>
    requires In.Shape(s.inbound)
  {
    s.inbound.claims[..s.inbound.tail]
  }

  /** A push under way is of the first pending event. */
  ghost predicate PushingFirst(s: Sys) {
    s.outbound.producer.Idle? || (s.pending != [] && s.outbound.producer.item.record == Encode(s.pending[0]))
  }

  /** The engine has run the commands taken, and what is pushed and pending is what that run emits. */
  ghost predicate EngineOk(engine: State, taken: seq<CommandRec>, pending: seq<RawEvent>, pushed: seq<seq<Cell>>) {
    && engine == Run(taken).state
    && pushed + EncodeAll(pending) == EncodeAll(Run(taken).events)
  }

  ghost predicate Inv(s: Sys) {
    && WellFormed(s) && PushingFirst(s) && AllEmittable(s.pending)
    && EngineOk(s.engine, TakenBy(s), s.pending, s.outbound.pushed)
  }

  lemma {:induction false} InitialInv(inLog2: nat, outLog2: nat, threads: nat)
    requires 1 <= inLog2 <= 62 && outLog2 <= 62
    ensures Inv(Initial(inLog2, outLog2, threads))
  {
    In.ReachableInv<CommandRec>(inLog2, threads, []);
    Out.InitialInv(outLog2, BlankSlot(), true);
  }

  lemma {:induction false} SubmitKeeps(s: Sys, m: In.Move<CommandRec>)
    requires Inv(s) && In.ByProducer(m)
    ensures Inv(Next(s, Submit(m)))
  {
    In.NextKeeps(s.inbound, m);
    In.NextOrdered(s.inbound, m);
    SubmitTakesNothing(s.inbound, m);
    assert TakenBy(Next(s, Submit(m))) == TakenBy(s);
  }

  lemma SubmitTakesNothing(r: In.Ring<CommandRec>, m: In.Move<CommandRec>)
    requires In.Shape(r) && In.ByProducer(m)
    ensures In.Next(r, m).tail == r.tail && r.claims <= In.Next(r, m).claims
  {
  }

  /** A consumer's step leaves the claims alone, and at most takes the next one. */
  ghost predicate TakesNext(r: In.Ring<CommandRec>, r': In.Ring<CommandRec>) {
    && r'.claims == r.claims
    && ((r'.popped == r.popped && r'.tail == r.tail)
        || (r'.tail == r.tail + 1 && r.tail < |r.claims| && r'.popped == r.popped + [Some(r.claims[r.tail])]))
  }

  lemma FetchMoves(r: In.Ring<CommandRec>, m: In.Move<CommandRec>)
    requires In.Inv(r) && !In.ByProducer(m)
    ensures TakesNext(r, In.Next(r, m))
  {
  }

  lemma {:induction false} FetchedKeeps(s: Sys, r': In.Ring<CommandRec>)
    requires Inv(s) && s.pending == [] && In.Inv(r') && In.Ordered(r') && TakesNext(s.inbound, r')
    ensures Inv(Fetched(s, r'))
  {
    var r := s.inbound;
    if r'.tail == r.tail + 1 {
      var c := r.claims[r.tail];
      var out := Step(s.engine, c);
      assert r'.claims[..r'.tail] == TakenBy(s) + [c];
      StepEmittable(s.engine, c, out);
      EngineTakes(s.engine, TakenBy(s), s.outbound.pushed, c, out);
    }
  }

  lemma {:induction false} FetchKeeps(s: Sys, m: In.Move<CommandRec>)
    requires Inv(s) && !In.ByProducer(m)
    ensures Inv(Next(s, Fetch(m)))
  {
    if s.pending == [] && s.outbound.producer.Idle? {
      In.NextKeeps(s.inbound, m);
      In.NextOrdered(s.inbound, m);
      FetchMoves(s.inbound, m);
      FetchedKeeps(s, In.Next(s.inbound, m));
    }
  }

  lemma EncodeAppend(a: seq<RawEvent>, b: seq<RawEvent>)
    ensures EncodeAll(a + b) == EncodeAll(a) + EncodeAll(b)
  {
  }

  lemma {:induction false} EngineTakes(engine: State, taken: seq<CommandRec>, pushed: seq<seq<Cell>>, c: CommandRec,
                                       out: Outcome)
    requires EngineOk(engine, taken, [], pushed) && out == Step(engine, c)
    ensures EngineOk(out.state, taken + [c], out.events, pushed)
  {
    RunExtends(taken, c);
    assert pushed + EncodeAll([]) == pushed;
    EncodeAppend(Run(taken).events, out.events);
  }

  lemma FirstMoves<T>(a: seq<T>, b: seq<T>)
    requires b != []
    ensures a + b == a + [b[0]] + b[1..]
  {
  }

  lemma {:induction false} EncodeRest(pending: seq<RawEvent>)
    requires pending != []
    ensures EncodeAll(pending)[0] == Encode(pending[0]) && EncodeAll(pending)[1..] == EncodeAll(pending[1..])
  {
    var whole, rest := EncodeAll(pending), EncodeAll(pending[1..]);
    forall i | 0 <= i < |rest|
      ensures whole[1..][i] == rest[i]
    {
      assert pending[1..][i] == pending[i + 1];
    }
  }

  lemma {:induction false} EnginePushes(engine: State, taken: seq<CommandRec>,
                                        pending: seq<RawEvent>, pushed: seq<seq<Cell>>)
    requires EngineOk(engine, taken, pending, pushed) && pending != []
    ensures EngineOk(engine, taken, pending[1..], pushed + [Encode(pending[0])])
  {
    EncodeRest(pending);
    FirstMoves(pushed, EncodeAll(pending));
  }

  lemma PushMoves(r: Out.Ring<Cell>, m: Out.Move<Cell>)
    requires Out.Inv(r) && Out.ByProducer(m)
    ensures
      var r' := Out.Next(r, m);
      || (r'.pushed == r.pushed && (r'.producer.Idle? || (!r.producer.Idle? && r'.producer.item == r.producer.item)
                                    || (m.Begin? && r'.producer.item == m.item)))
      || (!r.producer.Idle? && r'.producer.Idle? && r'.pushed == r.pushed + [r.producer.item.record])
  {
  }

  lemma {:induction false} PushKeeps(s: Sys, m: Out.Move<Cell>)
    requires Inv(s) && Out.ByProducer(m)
    ensures Inv(Next(s, Push(m)))
  {
    if MayPush(s, m) {
      Out.NextKeeps(s.outbound, m);
      PushMoves(s.outbound, m);
      if |Out.Next(s.outbound, m).pushed| > |s.outbound.pushed| {
        EnginePushes(s.engine, TakenBy(s), s.pending, s.outbound.pushed);
      }
    }
  }

  lemma {:induction false} PollKeeps(s: Sys, m: Out.Move<Cell>)
    requires Inv(s) && !Out.ByProducer(m)
    ensures Inv(Next(s, Poll(m)))
  {
    Out.NextKeeps(s.outbound, m);
  }

  lemma {:induction false} NextKeeps(s: Sys, a: Act)
    requires Inv(s)
    ensures Inv(Next(s, a))
  {
    match a
    case Submit(m) => if In.ByProducer(m) { SubmitKeeps(s, m); }
    case Fetch(m) => if !In.ByProducer(m) { FetchKeeps(s, m); }
    case Push(m) => if Out.ByProducer(m) { PushKeeps(s, m); }
    case Poll(m) => if !Out.ByProducer(m) { PollKeeps(s, m); }
  }

  ghost function Exec(s: Sys, acts: seq<Act>): (r: Sys)
    requires Inv(s)
    ensures Inv(r)
    decreases |acts|
  {
    if acts == [] then s
    else
      var before := Exec(s, acts[..|acts| - 1]);
      NextKeeps(before, acts[|acts| - 1]);
      Next(before, acts[|acts| - 1])
  }

  /** The engine is never at a loss: an event that is due can be pushed, and its push delivers it. */
  lemma {:induction false} PushReady(s: Sys) returns (call: PushCall)
    requires Inv(s) && s.pending != []
    ensures call.Event() == s.pending[0] && MayPush(s, Out.Begin(call.Filling()))
    ensures Out.Delivers(WIDTH, call.Filling())
  {
    assert Emittable(s.pending[0]);
    call :| call.Event() == s.pending[0];
    CallDelivers(call);
  }

  // ----- What the consumer sees -----

  /**
   End to end: whatever the interleaving and the capacities, the events consumed are, in order and whole, the first
   events the sequential engine emits on the commands in the order in which they were claimed.
   */
  lemma {:induction false} ConsumedIsPrefix(inLog2: nat, outLog2: nat, threads: nat, acts: seq<Act>)
    requires 1 <= inLog2 <= 62 && outLog2 <= 62
    ensures Inv(Initial(inLog2, outLog2, threads))
    ensures
      var s := Exec(Initial(inLog2, outLog2, threads), acts);
      s.outbound.popped <= EncodeAll(Run(s.inbound.claims).events)
  {
    InitialInv(inLog2, outLog2, threads);
    var s := Exec(Initial(inLog2, outLog2, threads), acts);
    RunPrefix(s.inbound.claims, s.inbound.tail);
    PrefixEncoded(Run(TakenBy(s)).events, Run(s.inbound.claims).events);
  }

  lemma PrefixEncoded(a: seq<RawEvent>, b: seq<RawEvent>)
    requires a <= b
    ensures EncodeAll(a) <= EncodeAll(b)
  {
  }

  /** Every event the engine emits has a reason that fits its slot, so the consumer can read it back. */
  ghost predicate AllStorable(es: seq<RawEvent>) {
    forall i :: 0 <= i < |es| ==> Storable(es[i].reason)
  }

  lemma {:induction false} ReasonsStorable()
    ensures Storable(Clip("post-only order would immediately match"))
    ensures Storable(Clip("insufficient liquidity for FOK"))
    ensures Storable(Clip("unknown order type"))
    ensures Storable(Clip("cancel rejected: order not found"))
    ensures Storable(Clip(""))
  {
    ClipStorable("post-only order would immediately match");
    ClipStorable("cancel rejected: order not found");
  }

  lemma ClipStorable(reason: string)
    requires forall i :: 0 <= i < |reason| ==> reason[i] != '\0'
    ensures Storable(Clip(reason))
  {
  }

  lemma {:induction false} SettleStorable(s: State, taker: OrderRec)
    ensures AllStorable(Settle(s, taker).events)
  {
    ReasonsStorable();
  }

  lemma {:induction false} MatchStorable(s: State, o: OrderRec)
    ensures AllStorable(MatchAndSettle(s, o).events)
  {
    var r := Sweep(o, o.remaining, s.book.On(o.side.Opposite()));
    var taker := AfterMatch(o, r.remaining);
    TradesStorable(s.seqNo, s.tradeSeq, taker, r.fills);
    SettleStorable(State(s.book.With(o.side.Opposite(), r.book), s.seqNo, s.tradeSeq + |r.fills|), taker);
  }

  lemma {:induction false} StepStorable(s: State, c: CommandRec)
    ensures AllStorable(Step(s, c).events)
  {
    ReasonsStorable();
    if c.NewOrder? {
      MatchStorable(s.(seqNo := s.seqNo + 1), Stamped(c.order, c.now));
    }
  }

  lemma {:induction false} TradesStorable(seqNo: nat, tradeSeq: nat, taker: OrderRec, fills: seq<Fill>)
    ensures AllStorable(TradeEvents(seqNo, tradeSeq, taker, fills))
    decreases |fills|
  {
    if fills != [] {
      TradesStorable(seqNo, tradeSeq + 1, taker, fills[1..]);
    }
  }

  lemma {:induction false} RunStorable(cs: seq<CommandRec>)
    ensures AllStorable(Run(cs).events)
  {
    if cs != [] {
      RunStorable(cs[..|cs| - 1]);
      StepStorable(Run(cs[..|cs| - 1]).state, cs[|cs| - 1]);
    }
  }

  lemma {:induction false} EncodeAllDetermines(es: seq<RawEvent>, fs: seq<RawEvent>)
    requires AllStorable(es) && AllStorable(fs) && EncodeAll(es) == EncodeAll(fs)
    ensures es == fs
  {
    forall i | 0 <= i < |es|
      ensures es[i] == fs[i]
    {
      assert EncodeAll(es)[i] == EncodeAll(fs)[i];
      EncodeDetermines(es[i], fs[i]);
    }
  }

  /**
   A consumer that has read everything written for the commands taken so far can, from those records alone, rebuild
   the engine's book but for users: whatever events the records stand for, replaying them gives it.
   */
  lemma {:induction false} ConsumerRebuildsBook(s: Sys, es: seq<RawEvent>)
    requires Inv(s) && ValidRun(TakenBy(s)) && s.pending == [] && s.outbound.tail == s.outbound.head
    requires AllStorable(es) && EncodeAll(es) == s.outbound.popped
    ensures Replay(es) == UnsignedBook(s.engine.book)
  {
    assert s.outbound.pushed[..s.outbound.tail] == s.outbound.pushed;
    assert s.outbound.pushed + EncodeAll([]) == s.outbound.pushed;
    RunStorable(TakenBy(s));
    EncodeAllDetermines(es, Run(TakenBy(s)).events);
    JournalIsComplete(TakenBy(s));
  }
}
