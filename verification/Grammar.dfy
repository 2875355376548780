/**
 The shape of the outbound stream: gapless sequence numbers, one lifecycle record per command, trade ids 1, 2, 3, ...
 */
module Grammar {
  import opened Types
  import opened FlatBook
  import opened EngineSpec

  predicate IsLifecycle(e: RawEvent) {
    e.evtType in {EVT_ACCEPTED, EVT_FILLED, EVT_CANCELLED, EVT_REJECTED}
  }

  /** Trades, consecutively numbered after `tradeSeq`, then exactly one lifecycle record; all bear `seqNo`. */
  predicate CommandShape(es: seq<RawEvent>, seqNo: nat, tradeSeq: nat) {
    && es != []
    && (forall i :: 0 <= i < |es| ==> es[i].seqNo == seqNo)
    && (forall i :: 0 <= i < |es| - 1 ==> es[i].evtType == EVT_TRADE && es[i].tradeId == tradeSeq + 1 + i)
    && IsLifecycle(es[|es| - 1])
  }

  lemma {:induction false} TradeEventsShape(seqNo: nat, tradeSeq: nat, taker: OrderRec, fills: seq<Fill>)
    ensures |TradeEvents(seqNo, tradeSeq, taker, fills)| == |fills|
    ensures forall i :: 0 <= i < |fills| ==>
              TradeEvents(seqNo, tradeSeq, taker, fills)[i] == TradeEvent(seqNo, tradeSeq + 1 + i, taker, fills[i])
    decreases |fills|
  {
    if fills != [] {
      TradeEventsShape(seqNo, tradeSeq + 1, taker, fills[1..]);
    }
  }

  lemma {:induction false} MatchShape(s: State, o: OrderRec)
    ensures
      var out := MatchAndSettle(s, o);
      && CommandShape(out.events, s.seqNo, s.tradeSeq)
      && out.state.seqNo == s.seqNo
      && out.state.tradeSeq == s.tradeSeq + |out.events| - 1
  {
    var r := Sweep(o, o.remaining, s.book.On(o.side.Opposite()));
    var taker := AfterMatch(o, r.remaining);
    TradeEventsShape(s.seqNo, s.tradeSeq, taker, r.fills);
    var trades := TradeEvents(s.seqNo, s.tradeSeq, taker, r.fills);
    var es := MatchAndSettle(s, o).events;
    assert |es| == |trades| + 1 && IsLifecycle(es[|trades|]);
    forall i | 0 <= i < |trades|
      ensures es[i] == TradeEvent(s.seqNo, s.tradeSeq + 1 + i, taker, r.fills[i])
    {
    }
  }

  lemma {:induction false} NewOrderShape(s: State, o: OrderRec)
    ensures
      var out := NewOrderStep(s, o);
      && CommandShape(out.events, s.seqNo, s.tradeSeq)
      && out.state.seqNo == s.seqNo
      && out.state.tradeSeq == s.tradeSeq + |out.events| - 1
  {
    if o.typ in {FOK, LIMIT, IOC, MARKET} {
      MatchShape(s, o);
    }
  }

  lemma {:induction false} HandledShape(s: State, c: CommandRec, out: Outcome)
    requires out == Handled(s, c) && !c.OtherCommand?
    ensures CommandShape(out.events, s.seqNo, s.tradeSeq)
    ensures out.state.seqNo == s.seqNo && out.state.tradeSeq == s.tradeSeq + |out.events| - 1
  {
    if c.NewOrder? {
      NewOrderShape(s, Stamped(c.order, c.now));
    }
  }

  lemma {:induction false} StepShape(s: State, c: CommandRec, out: Outcome)
    requires out == Step(s, c)
    ensures out.state.seqNo == s.seqNo + 1
    ensures
      if c.OtherCommand? then
        out.events == [] && out.state == s.(seqNo := s.seqNo + 1)
      else
        CommandShape(out.events, s.seqNo + 1, s.tradeSeq) && out.state.tradeSeq == s.tradeSeq + |out.events| - 1
  {
    if !c.OtherCommand? {
      HandledShape(s.(seqNo := s.seqNo + 1), c, out);
    }
  }

  // ----- Over whole runs -----

  /** The trade ids in stream order. */
  function TradeIds(es: seq<RawEvent>): seq<nat> {
    if es == [] then []
    else TradeIds(es[..|es| - 1]) + if es[|es| - 1].evtType == EVT_TRADE then [es[|es| - 1].tradeId] else []
  }

  /** The sequence numbers of the lifecycle records in stream order. */
  function LifecycleSeqs(es: seq<RawEvent>): seq<nat> {
    if es == [] then []
    else LifecycleSeqs(es[..|es| - 1]) + if IsLifecycle(es[|es| - 1]) then [es[|es| - 1].seqNo] else []
  }

  /** The 1-based positions of the commands the engine understands. */
  function KnownPositions(cs: seq<CommandRec>): seq<nat> {
    if cs == [] then []
    else KnownPositions(cs[..|cs| - 1]) + if cs[|cs| - 1].OtherCommand? then [] else [|cs|]
  }

  function UpTo(n: nat): seq<nat> {
    seq(n, i => i + 1)
  }

  lemma {:induction false} TradeIdsSnoc(es: seq<RawEvent>, e: RawEvent)
    ensures TradeIds(es + [e]) == TradeIds(es) + if e.evtType == EVT_TRADE then [e.tradeId] else []
    ensures LifecycleSeqs(es + [e]) == LifecycleSeqs(es) + if IsLifecycle(e) then [e.seqNo] else []
  {
    assert (es + [e])[..|es|] == es;
  }

  lemma UpToSnoc(n: nat)
    ensures UpTo(n + 1) == UpTo(n) + [n + 1]
  {
  }

  ghost predicate NumberedFrom(n: nat, trades: seq<RawEvent>) {
    forall i :: 0 <= i < |trades| ==> trades[i].evtType == EVT_TRADE && trades[i].tradeId == n + 1 + i
  }

  /** Appending a run of trades numbered on from `n`. */
  lemma {:induction false} AppendTrades(es: seq<RawEvent>, trades: seq<RawEvent>, n: nat)
    requires TradeIds(es) == UpTo(n)
    requires NumberedFrom(n, trades)
    ensures TradeIds(es + trades) == UpTo(n + |trades|)
    ensures LifecycleSeqs(es + trades) == LifecycleSeqs(es)
  {
    if trades == [] {
      assert es + trades == es;
    } else {
      var k := |trades| - 1;
      var first, last := trades[..k], trades[k];
      AppendTrades(es, first, n);
      TradeIdsSnoc(es + first, last);
      UpToSnoc(n + k);
      assert es + trades == es + first + [last];
    }
  }

  lemma {:induction false} LastRegrouped(before: seq<RawEvent>, es: seq<RawEvent>)
    requires es != []
    ensures before + es == before + es[..|es| - 1] + [es[|es| - 1]]
  {
    assert es == es[..|es| - 1] + [es[|es| - 1]];
  }

  lemma ShapeIsNumbered(es: seq<RawEvent>, seqNo: nat, tradeSeq: nat)
    requires CommandShape(es, seqNo, tradeSeq)
    ensures es != [] && NumberedFrom(tradeSeq, es[..|es| - 1])
    ensures IsLifecycle(es[|es| - 1]) && es[|es| - 1].evtType != EVT_TRADE && es[|es| - 1].seqNo == seqNo
  {
  }

  /** Appending the records of one understood command. */
  lemma {:induction false} AppendCommand(before: seq<RawEvent>, es: seq<RawEvent>, seqNo: nat, tradeSeq: nat)
    requires TradeIds(before) == UpTo(tradeSeq) && CommandShape(es, seqNo, tradeSeq)
    ensures TradeIds(before + es) == UpTo(tradeSeq + |es| - 1)
    ensures LifecycleSeqs(before + es) == LifecycleSeqs(before) + [seqNo]
  {
    ShapeIsNumbered(es, seqNo, tradeSeq);
    var trades, last := es[..|es| - 1], es[|es| - 1];
    AppendTrades(before, trades, tradeSeq);
    TradeIdsSnoc(before + trades, last);
    LastRegrouped(before, es);
  }

  /**
   Every run: the sequence number counts the commands, the trade ids in the stream are exactly 1, 2, ..., n,
   and the lifecycle records carry, in order, exactly the numbers of the commands the engine understands.
   */
  lemma {:induction false} StreamGrammar(cs: seq<CommandRec>)
    ensures Run(cs).state.seqNo == |cs|
    ensures TradeIds(Run(cs).events) == UpTo(Run(cs).state.tradeSeq)
    ensures LifecycleSeqs(Run(cs).events) == KnownPositions(cs)
  {
    if cs != [] {
      var k := |cs| - 1;
      var before := Run(cs[..k]);
      StreamGrammar(cs[..k]);
      StepShape(before.state, cs[k], Step(before.state, cs[k]));
      if cs[k].OtherCommand? {
        assert before.events + [] == before.events;
      } else {
        AppendCommand(before.events, Step(before.state, cs[k]).events, |cs|, before.state.tradeSeq);
      }
    }
  }
}
