/**
 Nothing stays behind: once no submitter is between its claim and its publication, steps of the engine and the
 consumer alone carry every event of every claimed command to the consumer. Each step is the next one of whoever is
 furthest down the pipeline and has something to do.
 */
module Drain {
  import opened Types
  import opened EngineSpec
  import opened EventRecord
  import opened Pipeline
  import In = MpscRing
  import Out = SpscRing

  ghost predicate NoneInFlight(r: In.Ring<CommandRec>) {
    forall p :: 0 <= p < |r.producers| ==> !r.producers[p].Writing? && !r.producers[p].Publishing?
  }

  ghost predicate AllConsumed(s: Sys) {
    s.inbound.tail == s.inbound.cursor && s.pending == [] && s.outbound.tail == s.outbound.head
  }

  // ----- How much each thread still has to do -----

  function ToFetch(c: In.Consumer<CommandRec>): nat {
    match c
    case Off => 4
    case Loaded(_) => 3
    case Ready(_) => 2
    case Taken(_, _) => 1
    case Cleared(_, _) => 0
  }

  function ToPush(p: Out.Producer<Cell>): nat {
    match p
    case Idle => 3
    case Loading(_) => 2
    case Checking(_, _) => 1
    case Filling(_, _, _) => 0
  }

  function ToWrite(p: Out.Producer<Cell>): int {
    match p
    case Filling(item, _, done) => |item.writes| - done
    case _ => 0
  }

  function ToCopy(c: Out.Consumer<Cell>): int {
    match c
    case Off => WIDTH + 3
    case Loaded(_) => WIDTH + 2
    case Copying(_, got) => WIDTH + 1 - |got|
  }

  // ----- One step of each kind -----

  /** A consumer that has records to read gets on with the first. */
  lemma {:induction false} PollStep(r: Out.Ring<Cell>) returns (m: Out.Move<Cell>)
    requires Out.Inv(r) && r.width == WIDTH && r.tail < r.head
    ensures !Out.ByProducer(m)
    ensures
      var r' := Out.Next(r, m);
      && r'.producer == r.producer && r'.head == r.head
      && (r'.tail == r.tail + 1 || (r'.tail == r.tail && ToCopy(r'.consumer) < ToCopy(r.consumer)))
  {
    assert Out.HoldsAt(r, r.tail);
    match r.consumer
    case Off => m := Out.PopLoadTail;
    case Loaded(_) => m := Out.PopLoadHead;
    case Copying(t, got) => m := if |got| < |r.At(t)| then Out.PopCopy else Out.PopAdvance;
  }

  /** A push under way gets on; an empty ring has room for it. */
  lemma {:induction false} PushStep(r: Out.Ring<Cell>) returns (m: Out.Move<Cell>)
    requires Out.Inv(r) && r.tail == r.head && !r.producer.Idle?
    ensures Out.ByProducer(m) && !m.Begin?
    ensures
      var r' := Out.Next(r, m);
      && r'.tail == r.tail
      && ((r'.producer.Idle? && |r'.pushed| == |r.pushed| + 1)
          || (|r'.pushed| == |r.pushed| && r'.head == r.head
              && (ToPush(r'.producer) < ToPush(r.producer)
                  || (ToPush(r'.producer) == ToPush(r.producer)
                      && 0 <= ToWrite(r'.producer) < ToWrite(r.producer)))))
  {
    match r.producer
    case Loading(_) =>
      m := Out.LoadHead;
    case Checking(_, _) =>
      m := Out.LoadTail;
      Out.FullIff(r);
    case Filling(item, head, done) =>
      m := if done < |item.writes| then Out.WriteCell else Out.AdvanceHead;
  }

  /** A published command gets fetched. */
  lemma {:induction false} FetchStep(r: In.Ring<CommandRec>) returns (m: In.Move<CommandRec>)
    requires In.Inv(r) && NoneInFlight(r) && r.tail < r.cursor
    ensures !In.ByProducer(m)
    ensures
      var r' := In.Next(r, m);
      && r'.claims == r.claims && r'.cursor == r.cursor && NoneInFlight(r')
      && ((r'.tail == r.tail + 1 && |r'.popped| == |r.popped| + 1)
          || (r'.tail == r.tail && r'.popped == r.popped && ToFetch(r'.consumer) < ToFetch(r.consumer)))
  {
    In.LapShowsPublished(r);
    match r.consumer
    case Off => m := In.PopLoadTail;
    case Loaded(_) => m := In.PopLoadLap;
    case Ready(_) => m := In.PopRead;
    case Taken(_, _) => m := In.PopClear;
    case Cleared(_, _) => m := In.PopAdvance;
  }

  // ----- One step of the whole -----

  /** Steps of everyone but the submitters. */
  ghost predicate NoSubmit(acts: seq<Act>) {
    forall i :: 0 <= i < |acts| ==> !acts[i].Submit?
  }

  lemma {:induction false} Poll1(s: Sys) returns (a: Act, s': Sys)
    requires Inv(s) && s.outbound.tail < s.outbound.head
    ensures !a.Submit? && s' == Next(s, a) && Inv(s') && s'.inbound == s.inbound && s'.pending == s.pending
    ensures s'.outbound.producer == s.outbound.producer && s'.outbound.head == s.outbound.head
    ensures
      || s'.outbound.tail == s.outbound.tail + 1
      || (s'.outbound.tail == s.outbound.tail && ToCopy(s'.outbound.consumer) < ToCopy(s.outbound.consumer))
  {
    var m := PollStep(s.outbound);
    a := Act.Poll(m);
    s' := Next(s, a);
    NextKeeps(s, a);
  }

  lemma {:induction false} Push1(s: Sys) returns (a: Act, s': Sys)
    requires Inv(s) && s.outbound.tail == s.outbound.head && !s.outbound.producer.Idle?
    ensures !a.Submit? && s' == Next(s, a) && Inv(s') && s'.inbound == s.inbound
    ensures
      || |s'.pending| < |s.pending|
      || (s'.pending == s.pending && s'.outbound.tail == s'.outbound.head
          && (ToPush(s'.outbound.producer) < ToPush(s.outbound.producer)
              || (ToPush(s'.outbound.producer) == ToPush(s.outbound.producer)
                  && 0 <= ToWrite(s'.outbound.producer) < ToWrite(s.outbound.producer))))
  {
    var m := PushStep(s.outbound);
    a := Act.Push(m);
    s' := Next(s, a);
    NextKeeps(s, a);
  }

  lemma {:induction false} Begin1(s: Sys) returns (a: Act, s': Sys)
    requires Inv(s) && s.outbound.tail == s.outbound.head && s.outbound.producer.Idle? && s.pending != []
    ensures !a.Submit? && s' == Next(s, a) && Inv(s') && s'.inbound == s.inbound && s'.pending == s.pending
    ensures s'.outbound.tail == s'.outbound.head && s'.outbound.producer.Loading?
  {
    var call := PushReady(s);
    a := Act.Push(Out.Begin(call.Filling()));
    s' := Next(s, a);
    NextKeeps(s, a);
  }

  lemma {:induction false} Fetch1(s: Sys) returns (a: Act, s': Sys)
    requires Inv(s) && NoneInFlight(s.inbound) && s.inbound.tail < s.inbound.cursor
    requires s.outbound.producer.Idle? && s.pending == []
    ensures !a.Submit? && s' == Next(s, a) && Inv(s') && s'.outbound == s.outbound
    ensures s'.inbound.claims == s.inbound.claims && s'.inbound.cursor == s.inbound.cursor && NoneInFlight(s'.inbound)
    ensures
      || s'.inbound.tail == s.inbound.tail + 1
      || (s'.inbound.tail == s.inbound.tail && ToFetch(s'.inbound.consumer) < ToFetch(s.inbound.consumer))
  {
    var m := FetchStep(s.inbound);
    a := Act.Fetch(m);
    s' := Next(s, a);
    NextKeeps(s, a);
  }

  /** One more step at the end of a schedule. */
  lemma {:induction false} ExecLast(s: Sys, acts: seq<Act>, r: Sys, a: Act)
    requires Inv(s) && r == Exec(s, acts)
    ensures Exec(s, acts + [a]) == Next(r, a)
  {
    assert (acts + [a])[..|acts|] == acts;
  }

  lemma NoSubmitLast(acts: seq<Act>, a: Act)
    requires NoSubmit(acts) && !a.Submit?
    ensures NoSubmit(acts + [a])
  {
  }

  // ----- All the way -----

  /** The event side is nearer to having pushed and read everything. */
  ghost predicate NearerOut(r': Out.Ring<Cell>, r: Out.Ring<Cell>) {
    || ToPush(r'.producer) < ToPush(r.producer)
    || (ToPush(r'.producer) == ToPush(r.producer)
        && (0 <= ToWrite(r'.producer) < ToWrite(r.producer)
            || (ToWrite(r'.producer) == ToWrite(r.producer)
                && (0 <= r'.head - r'.tail < r.head - r.tail
                    || (r'.head - r'.tail == r.head - r.tail
                        && 0 <= ToCopy(r'.consumer) < ToCopy(r.consumer))))))
  }

  /** The end is nearer; what is further down the pipeline counts for less. */
  ghost predicate Nearer(s': Sys, s: Sys) {
    var f', f := s'.inbound.cursor - s'.inbound.tail, s.inbound.cursor - s.inbound.tail;
    var c', c := ToFetch(s'.inbound.consumer), ToFetch(s.inbound.consumer);
    || 0 <= f' < f
    || (f' == f && (c' < c || (c' == c && (|s'.pending| < |s.pending| ||
                                           (|s'.pending| == |s.pending| && NearerOut(s'.outbound, s.outbound))))))
  }

  /** The next step of whoever is furthest down the pipeline and has something to do. */
  lemma {:induction false} Advance(s: Sys) returns (a: Act, s': Sys)
    requires Inv(s) && NoneInFlight(s.inbound) && !AllConsumed(s)
    ensures !a.Submit? && s' == Next(s, a) && Inv(s') && NoneInFlight(s'.inbound)
    ensures s'.inbound.claims == s.inbound.claims && Nearer(s', s)
  {
    if s.outbound.tail < s.outbound.head {
      a, s' := Poll1(s);
    } else if !s.outbound.producer.Idle? {
      a, s' := Push1(s);
    } else if s.pending != [] {
      a, s' := Begin1(s);
    } else {
      a, s' := Fetch1(s);
    }
  }

  /** Going on from `now`, which a schedule has led to from `s`. */
  lemma {:induction false} DrainFrom(s: Sys, acts: seq<Act>, now: Sys) returns (all: seq<Act>)
    requires Inv(s) && now == Exec(s, acts) && NoSubmit(acts) && NoneInFlight(now.inbound)
    ensures NoSubmit(all) && AllConsumed(Exec(s, all)) && Exec(s, all).inbound.claims == now.inbound.claims
    decreases
      now.inbound.cursor - now.inbound.tail, ToFetch(now.inbound.consumer), |now.pending|,
      ToPush(now.outbound.producer), ToWrite(now.outbound.producer),
      now.outbound.head - now.outbound.tail, ToCopy(now.outbound.consumer)
  {
    if AllConsumed(now) {
      all := acts;
    } else {
      var a, next := Advance(now);
      ExecLast(s, acts, now, a);
      NoSubmitLast(acts, a);
      all := DrainFrom(s, acts + [a], next);
    }
  }

  lemma {:induction false} AllDelivered(s: Sys)
    requires Inv(s) && AllConsumed(s)
    ensures s.outbound.popped == EncodeAll(Run(s.inbound.claims).events)
  {
    assert s.inbound.claims[..s.inbound.tail] == s.inbound.claims;
    assert s.outbound.pushed[..s.outbound.tail] == s.outbound.pushed;
    assert s.outbound.pushed + EncodeAll([]) == s.outbound.pushed;
  }

  /**
   From every reachable state in which no submitter is between claim and publication, the engine and the consumer
   alone can go on until the consumer has every event of every claimed command.
   */
  lemma {:induction false} EverythingArrives(inLog2: nat, outLog2: nat, threads: nat, acts: seq<Act>, s: Sys)
    returns (more: seq<Act>)
    requires 1 <= inLog2 <= 62 && outLog2 <= 62 && Inv(Initial(inLog2, outLog2, threads))
    requires s == Exec(Initial(inLog2, outLog2, threads), acts) && NoneInFlight(s.inbound)
    ensures NoSubmit(more) && Exec(s, more).inbound.claims == s.inbound.claims
    ensures Exec(s, more).outbound.popped == EncodeAll(Run(s.inbound.claims).events)
  {
    more := DrainFrom(s, [], s);
    AllDelivered(Exec(s, more));
  }
}
