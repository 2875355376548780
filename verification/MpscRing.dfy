/**
 The command ring as a state machine: any number of producers and one consumer, one step per atomic load, store,
 compare-and-swap and plain field access, in any interleaving.
 */
module MpscRing {
  import opened Types
  import opened Bits

  const NEVER: nat := 0xFFFF_FFFF_FFFF_FFFF

  datatype CmdSlot<T> = CmdSlot(lap: nat, cmd: Option<T>)

  /** Where a producer is inside TrySubmit. */
  datatype Producer<T> =
    | Idle
    | Loading(cmd: T)                // about to load the cursor
    | Checking(cmd: T, cur: nat)     // about to load the tail and compare
    | Claiming(cmd: T, cur: nat)     // about to compare-and-swap the cursor
    | Writing(cmd: T, cur: nat)      // owns the slot, about to write the command
    | Publishing(cmd: T, cur: nat)   // about to store the lap

  /** Where the consumer is inside TryPop. */
  datatype Consumer<T> =
    | Off
    | Loaded(tail: nat)              // about to load the slot's lap
    | Ready(tail: nat)               // about to read the command
    | Taken(tail: nat, cmd: Option<T>)    // about to clear the slot
    | Cleared(tail: nat, cmd: Option<T>)  // about to advance the tail

  /**
   The shared memory, the threads, and three histories: `claims` and `owners` record every claim in the order of
   the successful compare-and-swaps, `accepted` what TrySubmit has said yes to for each producer, and `popped` what
   TryPop has returned.
   */
  datatype Ring<T> = Ring(
    log2: nat, slots: seq<CmdSlot<T>>, cursor: nat, tail: nat,
    producers: seq<Producer<T>>, consumer: Consumer<T>,
    claims: seq<T>, owners: seq<nat>, accepted: seq<seq<T>>, popped: seq<Option<T>>)
  {
    function Size(): nat {
      Pow2(log2)
    }

    /** The slot of a sequence number. */
    function At(q: nat): CmdSlot<T>
      requires |slots| == Size()
    {
      SlotBelow(q, log2);
      slots[Slot(q, log2)]
    }

    function Put(q: nat, slot: CmdSlot<T>): (r: Ring<T>)
      requires |slots| == Size()
      ensures |r.slots| == |slots| && r == this.(slots := r.slots)
    {
      SlotBelow(q, log2);
      this.(slots := slots[Slot(q, log2) := slot])
    }

    function With(p: nat, pc: Producer<T>): Ring<T>
      requires p < |producers|
    {
      this.(producers := producers[p := pc])
    }
  }

  /** A new ring: nothing published anywhere. */
  function Initial<T>(log2: nat, threads: nat): Ring<T> {
    Ring(log2, seq(Pow2(log2), i => CmdSlot(NEVER, None)), 0, 0,
         seq(threads, i => Idle), Off, [], [], seq(threads, i => []), [])
  }

  datatype Move<T> =
    | Begin(p: nat, cmd: T)
    | LoadCursor(p: nat)
    | LoadTail(p: nat)
    | CompareAndSwap(p: nat)
    | WriteCommand(p: nat)
    | StoreLap(p: nat)
    | PopLoadTail
    | PopLoadLap
    | PopRead
    | PopClear
    | PopAdvance

  /** The back-pressure test, on 64-bit words. */
  predicate Refuses<T>(s: Ring<T>, cur: nat) {
    Sub64(cur, s.tail) >= s.Size()
  }

  function ProducerMove<T>(s: Ring<T>, p: nat, m: Move<T>): Ring<T>
    requires |s.slots| == s.Size() && p < |s.producers| && p < |s.accepted|
  {
    match (m, s.producers[p])
    case (Begin(_, cmd), Idle) => s.With(p, Loading(cmd))
    case (LoadCursor(_), Loading(cmd)) => s.With(p, Checking(cmd, s.cursor))
    case (LoadTail(_), Checking(cmd, cur)) => s.With(p, if Refuses(s, cur) then Idle else Claiming(cmd, cur))
    case (CompareAndSwap(_), Claiming(cmd, cur)) =>
      if s.cursor == cur then
        s.With(p, Writing(cmd, cur)).(cursor := cur + 1, claims := s.claims + [cmd], owners := s.owners + [p])
      else
        s.With(p, Loading(cmd))
    case (WriteCommand(_), Writing(cmd, cur)) =>
      s.With(p, Publishing(cmd, cur)).Put(cur, s.At(cur).(cmd := Some(cmd)))
    case (StoreLap(_), Publishing(cmd, cur)) =>
      s.With(p, Idle).Put(cur, s.At(cur).(lap := Shr(cur, s.log2)))
       .(accepted := s.accepted[p := s.accepted[p] + [cmd]])
    case _ => s
  }

  function ConsumerMove<T>(s: Ring<T>, m: Move<T>): Ring<T>
    requires |s.slots| == s.Size()
  {
    match (m, s.consumer)
    case (PopLoadTail, Off) => s.(consumer := Loaded(s.tail))
    case (PopLoadLap, Loaded(t)) =>
      s.(consumer := if s.At(t).lap == Shr(t, s.log2) then Ready(t) else Off)
    case (PopRead, Ready(t)) => s.(consumer := Taken(t, s.At(t).cmd))
    case (PopClear, Taken(t, cmd)) => s.Put(t, s.At(t).(cmd := None)).(consumer := Cleared(t, cmd))
    case (PopAdvance, Cleared(t, cmd)) => s.(consumer := Off, tail := s.tail + 1, popped := s.popped + [cmd])
    case _ => s
  }

  predicate ByProducer<T>(m: Move<T>) {
    m.Begin? || m.LoadCursor? || m.LoadTail? || m.CompareAndSwap? || m.WriteCommand? || m.StoreLap?
  }

  /** One step of the machine. A step that is not possible changes nothing, so every schedule is a run. */
  function Next<T>(s: Ring<T>, m: Move<T>): Ring<T>
    requires |s.slots| == s.Size() && |s.accepted| == |s.producers|
  {
    if ByProducer(m) then
      if m.p < |s.producers| then ProducerMove(s, m.p, m) else s
    else ConsumerMove(s, m)
  }

  // ----- The invariant -----

  /** The producer that claimed `q` has not yet published it. */
  ghost predicate InFlight<T>(s: Ring<T>, q: nat)
    requires |s.owners| == s.cursor
  {
    q < s.cursor && s.owners[q] < |s.producers| &&
    var pc := s.producers[s.owners[q]];
    (pc.Writing? || pc.Publishing?) && pc.cur == q
  }

  /** The lap a slot shows before `q` is published in it: the previous lap, or the mark in the first. */
  function LapBefore(q: nat, log2: nat): nat {
    if Shr(q, log2) == 0 then NEVER else Shr(q, log2) - 1
  }

  /** What the slot of `q` holds, for a `q` in the window from the tail to one ring size further. */
  ghost predicate SlotOk<T>(s: Ring<T>, q: nat)
    requires |s.slots| == s.Size() && |s.owners| == s.cursor == |s.claims|
  {
    if q >= s.cursor then s.At(q) == CmdSlot(LapBefore(q, s.log2), None)
    else if InFlight(s, q) then
      s.At(q) == CmdSlot(LapBefore(q, s.log2),
                         if s.producers[s.owners[q]].Writing? then None else Some(s.claims[q]))
    else
      s.At(q) == CmdSlot(Shr(q, s.log2), if s.consumer.Cleared? && q == s.tail then None else Some(s.claims[q]))
  }

  ghost predicate ProducerOk<T>(s: Ring<T>, p: nat)
    requires p < |s.producers| && |s.owners| == s.cursor == |s.claims|
  {
    match s.producers[p]
    case Idle => true
    case Loading(_) => true
    case Checking(_, cur) => cur <= s.cursor
    case Claiming(_, cur) => cur <= s.cursor && cur < s.tail + s.Size()
    case Writing(cmd, cur) => s.tail <= cur < s.cursor && s.owners[cur] == p && s.claims[cur] == cmd
    case Publishing(cmd, cur) => s.tail <= cur < s.cursor && s.owners[cur] == p && s.claims[cur] == cmd
  }

  ghost predicate ConsumerOk<T>(s: Ring<T>)
    requires |s.owners| == s.cursor == |s.claims|
  {
    match s.consumer
    case Off => true
    case Loaded(t) => t == s.tail
    case Ready(t) => t == s.tail < s.cursor && !InFlight(s, t)
    case Taken(t, cmd) => t == s.tail < s.cursor && !InFlight(s, t) && cmd == Some(s.claims[t])
    case Cleared(t, cmd) => t == s.tail < s.cursor && !InFlight(s, t) && cmd == Some(s.claims[t])
  }

  ghost predicate Shape<T>(s: Ring<T>) {
    && 1 <= s.log2 <= 62 && |s.slots| == s.Size() && |s.accepted| == |s.producers|
    && s.tail <= s.cursor <= s.tail + s.Size()
    && |s.claims| == |s.owners| == s.cursor
    && |s.popped| == s.tail
    && (forall i :: 0 <= i < s.tail ==> s.popped[i] == Some(s.claims[i]))
  }

  ghost predicate Inv<T>(s: Ring<T>) {
    && Shape(s)
    && (forall p {:trigger ProducerOk(s, p)} :: 0 <= p < |s.producers| ==> ProducerOk(s, p))
    && (forall q {:trigger SlotOk(s, q)} :: s.tail <= q < s.tail + s.Size() ==> SlotOk(s, q))
    && ConsumerOk(s)
  }

  lemma {:induction false} InitialInv<T>(log2: nat, threads: nat)
    requires 1 <= log2 <= 62
    ensures Inv(Initial<T>(log2, threads))
  {
    var s := Initial<T>(log2, threads);
    forall q | 0 <= q < s.Size()
      ensures SlotOk(s, q)
    {
      FirstLap(q, log2);
    }
    forall p | 0 <= p < threads
      ensures ProducerOk(s, p)
    {
    }
  }

  // ----- Every step keeps the invariant -----

  /** Slots of other sequence numbers in the window are untouched. */
  lemma {:induction false} PutElsewhere<T>(s: Ring<T>, cur: nat, slot: CmdSlot<T>, q: nat)
    requires |s.slots| == s.Size() && s.tail <= cur < s.tail + s.Size() && s.tail <= q < s.tail + s.Size()
    ensures s.Put(cur, slot).At(q) == if q == cur then slot else s.At(q)
  {
    SlotBelow(cur, s.log2);
    SlotBelow(q, s.log2);
    if q < cur {
      SlotsApart(q, cur, s.log2);
    } else if cur < q {
      SlotsApart(cur, q, s.log2);
    }
  }

  /** Steps outside the stretch between claim and publication change nobody's view of a slot. */
  lemma {:induction false} MoveIdle<T>(s: Ring<T>, p: nat, pc: Producer<T>)
    requires Inv(s) && p < |s.producers|
    requires !s.producers[p].Writing? && !s.producers[p].Publishing? && !pc.Writing? && !pc.Publishing?
    requires ProducerOk(s.With(p, pc), p)
    ensures Inv(s.With(p, pc))
  {
    var s' := s.With(p, pc);
    forall o | 0 <= o < |s.producers|
      ensures ProducerOk(s', o)
    {
      assert ProducerOk(s, o);
    }
    forall q | s.tail <= q < s.tail + s.Size()
      ensures SlotOk(s', q)
    {
      assert SlotOk(s, q);
    }
  }

  /** The check passes only with room in the ring, however old the cursor that was loaded. */
  lemma {:induction false} PassedMeansRoom<T>(s: Ring<T>, cur: nat)
    requires Shape(s) && cur <= s.cursor && !Refuses(s, cur)
    ensures cur < s.tail + s.Size()
  {
    Pow2Of62();
    Pow2Monotone(s.log2, 62);
  }

  lemma {:induction false} MoveClaim<T>(s: Ring<T>, p: nat, cmd: T, cur: nat)
    requires Inv(s) && p < |s.producers| && s.producers[p] == Claiming(cmd, cur) && s.cursor == cur
    ensures Inv(Next(s, CompareAndSwap(p)))
  {
    var s' := Next(s, CompareAndSwap(p));
    assert ProducerOk(s, p);
    forall o | 0 <= o < |s.producers|
      ensures ProducerOk(s', o)
    {
      assert ProducerOk(s, o);
    }
    forall q | s.tail <= q < s.tail + s.Size()
      ensures SlotOk(s', q)
    {
      assert SlotOk(s, q);
    }
  }

  lemma {:induction false} MoveWrite<T>(s: Ring<T>, p: nat, cmd: T, cur: nat)
    requires Inv(s) && p < |s.producers| && s.producers[p] == Writing(cmd, cur)
    ensures Inv(Next(s, WriteCommand(p)))
  {
    var s' := Next(s, WriteCommand(p));
    assert ProducerOk(s, p) && SlotOk(s, cur);
    forall o | 0 <= o < |s.producers|
      ensures ProducerOk(s', o)
    {
      assert ProducerOk(s, o);
    }
    forall q | s.tail <= q < s.tail + s.Size()
      ensures SlotOk(s', q)
    {
      assert SlotOk(s, q);
      PutElsewhere(s.With(p, Publishing(cmd, cur)), cur, s.At(cur).(cmd := Some(cmd)), q);
    }
  }

  lemma {:induction false} MovePublish<T>(s: Ring<T>, p: nat, cmd: T, cur: nat)
    requires Inv(s) && p < |s.producers| && s.producers[p] == Publishing(cmd, cur)
    ensures Inv(Next(s, StoreLap(p)))
  {
    var s' := Next(s, StoreLap(p));
    assert ProducerOk(s, p) && SlotOk(s, cur);
    forall o | 0 <= o < |s.producers|
      ensures ProducerOk(s', o)
    {
      assert ProducerOk(s, o);
    }
    forall q | s.tail <= q < s.tail + s.Size()
      ensures SlotOk(s', q)
    {
      assert SlotOk(s, q);
      PutElsewhere(s.With(p, Idle), cur, s.At(cur).(lap := Shr(cur, s.log2)), q);
    }
  }

  lemma {:induction false} ProducerMoveKeeps<T>(s: Ring<T>, p: nat, m: Move<T>)
    requires Inv(s) && p < |s.producers| && ByProducer(m) && m.p == p
    ensures Inv(Next(s, m))
  {
    assert ProducerOk(s, p);
    match (m, s.producers[p])
    case (Begin(_, cmd), Idle) => MoveIdle(s, p, Loading(cmd));
    case (LoadCursor(_), Loading(cmd)) => MoveIdle(s, p, Checking(cmd, s.cursor));
    case (LoadTail(_), Checking(cmd, cur)) =>
      if !Refuses(s, cur) {
        PassedMeansRoom(s, cur);
      }
      MoveIdle(s, p, if Refuses(s, cur) then Idle else Claiming(cmd, cur));
    case (CompareAndSwap(_), Claiming(cmd, cur)) =>
      if s.cursor == cur {
        MoveClaim(s, p, cmd, cur);
      } else {
        MoveIdle(s, p, Loading(cmd));
      }
    case (WriteCommand(_), Writing(cmd, cur)) => MoveWrite(s, p, cmd, cur);
    case (StoreLap(_), Publishing(cmd, cur)) => MovePublish(s, p, cmd, cur);
    case _ =>
  }

  /** A slot shows the lap of the tail exactly when the tail's claim has been published. */
  lemma {:induction false} LapShowsPublished<T>(s: Ring<T>)
    requires Inv(s)
    ensures s.At(s.tail).lap == Shr(s.tail, s.log2) <==> s.tail < s.cursor && !InFlight(s, s.tail)
  {
    assert SlotOk(s, s.tail);
  }

  /** Steps of the consumer that leave slots and counters alone. */
  lemma {:induction false} MoveConsumer<T>(s: Ring<T>, pc: Consumer<T>)
    requires Inv(s) && !s.consumer.Cleared? && !pc.Cleared? && ConsumerOk(s.(consumer := pc))
    ensures Inv(s.(consumer := pc))
  {
    var s' := s.(consumer := pc);
    forall o | 0 <= o < |s.producers|
      ensures ProducerOk(s', o)
    {
      assert ProducerOk(s, o);
    }
    forall q | s.tail <= q < s.tail + s.Size()
      ensures SlotOk(s', q)
    {
      assert SlotOk(s, q);
    }
  }

  lemma {:induction false} MoveClear<T>(s: Ring<T>, t: nat, cmd: Option<T>)
    requires Inv(s) && s.consumer == Taken(t, cmd)
    ensures Inv(Next(s, PopClear))
  {
    var s' := Next(s, PopClear);
    assert SlotOk(s, t);
    forall o | 0 <= o < |s.producers|
      ensures ProducerOk(s', o)
    {
      assert ProducerOk(s, o);
    }
    forall q | s.tail <= q < s.tail + s.Size()
      ensures SlotOk(s', q)
    {
      assert SlotOk(s, q);
      PutElsewhere(s, t, s.At(t).(cmd := None), q);
    }
  }

  lemma {:induction false} MoveAdvance<T>(s: Ring<T>, t: nat, cmd: Option<T>)
    requires Inv(s) && s.consumer == Cleared(t, cmd)
    ensures Inv(Next(s, PopAdvance))
  {
    var s' := Next(s, PopAdvance);
    assert SlotOk(s, t);
    forall o | 0 <= o < |s.producers|
      ensures ProducerOk(s', o)
    {
      assert ProducerOk(s, o);
    }
    forall q | s'.tail <= q < s'.tail + s.Size()
      ensures SlotOk(s', q)
    {
      if q == t + s.Size() {
        NextLap(t, s.log2);
      } else {
        assert SlotOk(s, q);
      }
    }
  }

  lemma {:induction false} ConsumerMoveKeeps<T>(s: Ring<T>, m: Move<T>)
    requires Inv(s) && !ByProducer(m)
    ensures Inv(Next(s, m))
  {
    LapShowsPublished(s);
    match (m, s.consumer)
    case (PopLoadTail, Off) => MoveConsumer(s, Loaded(s.tail));
    case (PopLoadLap, Loaded(t)) => MoveConsumer(s, if s.At(t).lap == Shr(t, s.log2) then Ready(t) else Off);
    case (PopRead, Ready(t)) =>
      assert SlotOk(s, t);
      MoveConsumer(s, Taken(t, s.At(t).cmd));
    case (PopClear, Taken(t, cmd)) => MoveClear(s, t, cmd);
    case (PopAdvance, Cleared(t, cmd)) => MoveAdvance(s, t, cmd);
    case _ =>
  }

  lemma {:induction false} NextKeeps<T>(s: Ring<T>, m: Move<T>)
    requires Inv(s)
    ensures Inv(Next(s, m))
  {
    if ByProducer(m) {
      if m.p < |s.producers| {
        ProducerMoveKeeps(s, m.p, m);
      }
    } else {
      ConsumerMoveKeeps(s, m);
    }
  }

  // ----- Each producer's own order -----

  /** The commands producer `p` has claimed a place for, in claim order. */
  function ClaimedBy<T>(claims: seq<T>, owners: seq<nat>, p: nat): seq<T>
    requires |claims| == |owners|
  {
    if claims == [] then []
    else
      var n := |claims| - 1;
      ClaimedBy(claims[..n], owners[..n], p) + if owners[n] == p then [claims[n]] else []
  }

  /** What a producer has claimed but not yet reported as accepted. */
  function Unreported<T>(pc: Producer<T>): seq<T> {
    match pc
    case Writing(cmd, _) => [cmd]
    case Publishing(cmd, _) => [cmd]
    case _ => []
  }

  ghost predicate Ordered<T>(s: Ring<T>) {
    && |s.claims| == |s.owners| && |s.accepted| == |s.producers|
    && forall p :: 0 <= p < |s.producers| ==>
         ClaimedBy(s.claims, s.owners, p) == s.accepted[p] + Unreported(s.producers[p])
  }

  lemma {:induction false} ClaimedBySnoc<T>(claims: seq<T>, owners: seq<nat>, cmd: T, o: nat, p: nat)
    requires |claims| == |owners|
    ensures ClaimedBy(claims + [cmd], owners + [o], p) == ClaimedBy(claims, owners, p) + if o == p then [cmd] else []
  {
    assert (claims + [cmd])[..|claims|] == claims && (owners + [o])[..|owners|] == owners;
  }

  lemma {:induction false} ClaimOrdered<T>(s: Ring<T>, p: nat, cmd: T, cur: nat)
    requires Inv(s) && Ordered(s) && p < |s.producers| && s.producers[p] == Claiming(cmd, cur) && s.cursor == cur
    ensures Ordered(Next(s, CompareAndSwap(p)))
  {
    var s' := Next(s, CompareAndSwap(p));
    assert s'.claims == s.claims + [cmd] && s'.owners == s.owners + [p] && s'.accepted == s.accepted;
    forall o | 0 <= o < |s.producers|
      ensures ClaimedBy(s'.claims, s'.owners, o) == s'.accepted[o] + Unreported(s'.producers[o])
    {
      ClaimedBySnoc(s.claims, s.owners, cmd, p, o);
    }
  }

  lemma ReportsInHand<T>(s: Ring<T>, m: Move<T>, s': Ring<T>, o: nat)
    requires |s.slots| == s.Size() && |s.accepted| == |s.producers| && s' == Next(s, m) && s'.claims == s.claims
    requires o < |s.producers|
    ensures |s'.producers| == |s'.accepted| == |s.producers|
    ensures s'.accepted[o] + Unreported(s'.producers[o]) == s.accepted[o] + Unreported(s.producers[o])
  {
  }

  /** Any other move reports what it takes out of a producer's hands. */
  lemma {:induction false} ReportOrdered<T>(s: Ring<T>, m: Move<T>, s': Ring<T>)
    requires Inv(s) && Ordered(s) && s' == Next(s, m)
    requires s'.claims == s.claims && s'.owners == s.owners
    ensures Ordered(s')
  {
    forall o | 0 <= o < |s.producers|
      ensures s'.accepted[o] + Unreported(s'.producers[o]) == s.accepted[o] + Unreported(s.producers[o])
    {
      ReportsInHand(s, m, s', o);
    }
  }

  lemma {:induction false} NextOrdered<T>(s: Ring<T>, m: Move<T>)
    requires Inv(s) && Ordered(s)
    ensures Ordered(Next(s, m))
  {
    if m.CompareAndSwap? && m.p < |s.producers| && s.producers[m.p].Claiming? && s.cursor == s.producers[m.p].cur {
      ClaimOrdered(s, m.p, s.producers[m.p].cmd, s.cursor);
    } else {
      ReportOrdered(s, m, Next(s, m));
    }
  }

  // ----- Runs -----

  /** A schedule: the moves of all threads, interleaved in any way. */
  function Exec<T>(s: Ring<T>, moves: seq<Move<T>>): (r: Ring<T>)
    requires |s.slots| == s.Size() && |s.accepted| == |s.producers|
    ensures |r.slots| == r.Size() && |r.accepted| == |r.producers|
    decreases |moves|
  {
    if moves == [] then s
    else Next(Exec(s, moves[..|moves| - 1]), moves[|moves| - 1])
  }

  lemma {:induction false} ExecKeeps<T>(s: Ring<T>, moves: seq<Move<T>>)
    requires Inv(s) && Ordered(s)
    ensures Inv(Exec(s, moves)) && Ordered(Exec(s, moves))
    decreases |moves|
  {
    if moves != [] {
      ExecKeeps(s, moves[..|moves| - 1]);
      NextKeeps(Exec(s, moves[..|moves| - 1]), moves[|moves| - 1]);
      NextOrdered(Exec(s, moves[..|moves| - 1]), moves[|moves| - 1]);
    }
  }

  lemma {:induction false} ReachableInv<T>(log2: nat, threads: nat, moves: seq<Move<T>>)
    requires 1 <= log2 <= 62
    ensures Inv(Exec(Initial(log2, threads), moves)) && Ordered(Exec(Initial(log2, threads), moves))
  {
    InitialInv<T>(log2, threads);
    ExecKeeps(Initial(log2, threads), moves);
  }

  /**
   FIFO refinement: under every interleaving, what has been popped is exactly the front of the claims, one command
   per claim in claim order; and each producer's share of the claims is what it was told was accepted, in the order
   it submitted, followed by at most the one submission it is still in the middle of.
   */
  lemma {:induction false} PopsFollowClaims<T>(log2: nat, threads: nat, moves: seq<Move<T>>)
    requires 1 <= log2 <= 62
    ensures
      var s := Exec(Initial(log2, threads), moves);
      && |s.popped| <= |s.claims| == |s.owners| <= |s.popped| + Pow2(log2)
      && (forall i :: 0 <= i < |s.popped| ==> s.popped[i] == Some(s.claims[i]))
      && (forall p :: 0 <= p < |s.producers| ==>
            ClaimedBy(s.claims, s.owners, p) == s.accepted[p] + Unreported(s.producers[p]))
  {
    ReachableInv(log2, threads, moves);
    ExecLog2(Initial<T>(log2, threads), moves);
  }

  lemma {:induction false} ExecLog2<T>(s: Ring<T>, moves: seq<Move<T>>)
    requires |s.slots| == s.Size() && |s.accepted| == |s.producers|
    ensures Exec(s, moves).log2 == s.log2 && |Exec(s, moves).producers| == |s.producers|
    decreases |moves|
  {
    if moves != [] {
      ExecLog2(s, moves[..|moves| - 1]);
    }
  }

  /** Nothing is lost: a claim not yet popped is being written, sits in its slot, or is in the consumer's hands. */
  lemma {:induction false} NothingLost<T>(s: Ring<T>, q: nat)
    requires Inv(s) && s.tail <= q < s.cursor
    ensures
      || InFlight(s, q)
      || (s.At(q).lap == Shr(q, s.log2) && s.At(q).cmd == Some(s.claims[q]))
      || (q == s.tail && s.consumer == Cleared(q, Some(s.claims[q])))
  {
    assert SlotOk(s, q);
  }

  // ----- Who may touch a slot -----

  /** The slot a producer owns from its claim to its publication. */
  ghost predicate Owns<T>(s: Ring<T>, p: nat, i: nat) {
    && p < |s.producers| && (s.producers[p].Writing? || s.producers[p].Publishing?)
    && Slot(s.producers[p].cur, s.log2) == i
  }

  /** The slot the consumer owns from its successful lap check to its tail advance. */
  ghost predicate ConsumerOwns<T>(s: Ring<T>, i: nat) {
    !s.consumer.Off? && !s.consumer.Loaded? && Slot(s.consumer.tail, s.log2) == i
  }

  /** At most one thread owns a slot. */
  lemma {:induction false} SlotExclusive<T>(s: Ring<T>, i: nat)
    requires Inv(s)
    ensures forall p: nat, o: nat :: Owns(s, p, i) && Owns(s, o, i) ==> p == o
    ensures forall p: nat :: Owns(s, p, i) ==> !ConsumerOwns(s, i)
  {
    forall p: nat, o: nat | Owns(s, p, i) && Owns(s, o, i)
      ensures p == o
    {
      assert ProducerOk(s, p) && ProducerOk(s, o);
      SameSlot(s, s.producers[p].cur, s.producers[o].cur);
    }
    forall p: nat | Owns(s, p, i)
      ensures !ConsumerOwns(s, i)
    {
      assert ProducerOk(s, p);
      if ConsumerOwns(s, i) {
        SameSlot(s, s.producers[p].cur, s.consumer.tail);
      }
    }
  }

  lemma {:induction false} SameSlot<T>(s: Ring<T>, a: nat, b: nat)
    requires Shape(s) && s.tail <= a < s.cursor && s.tail <= b < s.cursor && Slot(a, s.log2) == Slot(b, s.log2)
    ensures a == b
  {
    if a < b {
      SlotsApart(a, b, s.log2);
    } else if b < a {
      SlotsApart(b, a, s.log2);
    }
  }

  /** A slot's command and lap change only by the hand of its owner. */
  lemma OnlyOwnerWrites<T>(s: Ring<T>, m: Move<T>, i: nat)
    requires Inv(s) && i < |s.slots| && Next(s, m).slots[i] != s.slots[i]
    ensures if ByProducer(m) then Owns(s, m.p, i) else ConsumerOwns(s, i)
  {
  }

  /** The consumer's clearing erases the very command it is about to return, never a later one. */
  lemma {:induction false} ClearErasesTaken<T>(s: Ring<T>, t: nat, cmd: Option<T>)
    requires Inv(s) && s.consumer == Taken(t, cmd)
    ensures s.At(t).cmd == cmd == Some(s.claims[s.tail])
  {
    assert SlotOk(s, t);
  }

  // ----- What the two boolean answers mean -----

  /** The tail has overtaken a cursor value, and not by a whole turn of a 64-bit counter. */
  predicate Overtaken(cur: nat, tail: nat, size: nat) {
    cur < tail && 0 < (tail - cur) % TWO_64 <= TWO_64 - size
  }

  /** The room test on 64-bit words, in terms of the counters themselves. */
  lemma {:induction false} RoomTest(cur: nat, cursor: nat, tail: nat, size: nat)
    requires cur <= cursor && tail <= cursor <= tail + size && 0 < size <= TWO_62
    ensures Sub64(cur, tail) >= size <==> (cur == cursor == tail + size) || Overtaken(cur, tail, size)
    ensures tail < TWO_63 ==> (Overtaken(cur, tail, size) <==> cur < tail)
  {
    if cur >= tail {
      WrapsTo(cur - tail, 0, cur - tail);
    } else {
      Behind64(cur, tail);
      if tail < TWO_63 {
        WrapsTo(tail - cur, 0, tail - cur);
      }
    }
  }

  /**
   TrySubmit gives up exactly when the ring is full at the instant the tail is loaded, or when the cursor it
   loaded earlier has meanwhile been overtaken by the tail.
   */
  lemma {:induction false} RefusedIff<T>(s: Ring<T>, p: nat, cmd: T, cur: nat)
    requires Inv(s) && p < |s.producers| && s.producers[p] == Checking(cmd, cur)
    ensures
      Next(s, LoadTail(p)).producers[p] == Idle <==>
      (cur == s.cursor == s.tail + s.Size()) || Overtaken(cur, s.tail, s.Size())
    ensures s.tail < TWO_63 ==> (Overtaken(cur, s.tail, s.Size()) <==> cur < s.tail)
  {
    assert ProducerOk(s, p);
    Pow2Of62();
    Pow2Monotone(s.log2, 62);
    RoomTest(cur, s.cursor, s.tail, s.Size());
  }

  /**
   TrySubmit returns only in two ways: refused, or with its own command published and accepted. A producer that loses
   the race for a slot, which another has then claimed, goes round again with the same command.
   */
  lemma {:induction false} SubmitEnds<T>(s: Ring<T>, p: nat, m: Move<T>)
    requires Inv(s) && p < |s.producers| && !s.producers[p].Idle?
    ensures
      var pc, s' := s.producers[p], Next(s, m);
      && (s'.producers[p].Idle? ==> m == LoadTail(p) || m == StoreLap(p))
      && (pc.Publishing? && m == StoreLap(p) ==>
            s'.producers[p].Idle? && s'.accepted[p] == s.accepted[p] + [pc.cmd])
      && (pc.Claiming? && m == CompareAndSwap(p) ==>
            if s'.cursor > s.cursor then
              s'.producers[p] == Writing(pc.cmd, s.cursor) && s'.claims == s.claims + [pc.cmd]
            else
              pc.cur < s.cursor && s'.producers[p] == Loading(pc.cmd) && s'.claims == s.claims)
  {
    assert ProducerOk(s, p);
  }

  /** TryPop gives up exactly when no claim is outstanding or the first one is not published yet. */
  lemma {:induction false} NilIff<T>(s: Ring<T>)
    requires Inv(s) && s.consumer.Loaded?
    ensures Next(s, PopLoadLap).consumer == Off <==> s.tail == s.cursor || InFlight(s, s.tail)
  {
    LapShowsPublished(s);
  }

  lemma {:induction false} ExecAt<T>(s: Ring<T>, moves: seq<Move<T>>, k: nat)
    requires |s.slots| == s.Size() && |s.accepted| == |s.producers| && k < |moves|
    ensures Exec(s, moves[..k + 1]) == Next(Exec(s, moves[..k]), moves[k])
  {
    assert moves[..k + 1][..k] == moves[..k];
  }

  /** The first `k` moves lead from `s` to `r`. */
  ghost predicate Reached<T>(s: Ring<T>, moves: seq<Move<T>>, k: nat, r: Ring<T>)
    requires |s.slots| == s.Size() && |s.accepted| == |s.producers| && k <= |moves|
  {
    r == Exec(s, moves[..k])
  }

  lemma {:induction false} ReachNext<T>(s: Ring<T>, moves: seq<Move<T>>, k: nat, r: Ring<T>)
    requires |s.slots| == s.Size() && |s.accepted| == |s.producers| && k < |moves| && Reached(s, moves, k, r)
    ensures Reached(s, moves, k + 1, Next(r, moves[k]))
  {
    ExecAt(s, moves, k);
  }

  /** Producer 0 loads the cursor; then producer 1 submits and the consumer pops, all the way. */
  const STALE_SCHEDULE: seq<Move<int>> := [
    Begin(0, 7), LoadCursor(0),
    Begin(1, 8), LoadCursor(1), LoadTail(1), CompareAndSwap(1), WriteCommand(1), StoreLap(1),
    PopLoadTail, PopLoadLap, PopRead, PopClear, PopAdvance]

  /** A refusal by an empty ring: the cursor was loaded before another producer's command went through. */
  lemma {:induction false} StaleRefusal()
    ensures
      var s := Exec(Initial<int>(1, 2), STALE_SCHEDULE);
      && s.tail == s.cursor == 1 && |s.producers| == 2
      && s.producers[0] == Checking(7, 0)
      && Next(s, LoadTail(0)).producers[0] == Idle
  {
    var ms := STALE_SCHEDULE;
    StaleLoaded();
    StaleBegun();
    StaleFollowed();
    StaleChecked();
    StaleClaimed();
    StaleWritten();
    StaleSubmitted();
    StaleSeen();
    StaleTaken();
    StalePopped();
    assert ms[..13] == ms;
  }

  ghost predicate After(k: nat, s: Ring<int>)
    requires k <= |STALE_SCHEDULE|
  {
    Reached(Initial(1, 2), STALE_SCHEDULE, k, s)
  }

  lemma {:induction false} StaleStep(k: nat, s: Ring<int>, s': Ring<int>)
    requires k < |STALE_SCHEDULE| && After(k, s) && |s.slots| == s.Size() && |s.accepted| == |s.producers|
    requires s' == Next(s, STALE_SCHEDULE[k])
    ensures After(k + 1, s')
  {
    ReachNext(Initial(1, 2), STALE_SCHEDULE, k, s);
  }

  const EMPTY_SLOTS: seq<CmdSlot<int>> := [CmdSlot(NEVER, None), CmdSlot(NEVER, None)]
  const FULL_SLOTS: seq<CmdSlot<int>> := [CmdSlot(0, Some(8)), CmdSlot(NEVER, None)]

  /** The ring of the example before anything is claimed. */
  function Unclaimed(p0: Producer<int>, p1: Producer<int>): Ring<int> {
    Ring(1, EMPTY_SLOTS, 0, 0, [p0, p1], Off, [], [], [[], []], [])
  }

  lemma {:induction false} StaleLoaded()
    ensures After(2, Unclaimed(Checking(7, 0), Idle))
  {
    assert Pow2(1) == 2 && Initial<int>(1, 2) == Unclaimed(Idle, Idle) && STALE_SCHEDULE[..0] == [];
    StaleStep(0, Unclaimed(Idle, Idle), Unclaimed(Loading(7), Idle));
    StaleStep(1, Unclaimed(Loading(7), Idle), Unclaimed(Checking(7, 0), Idle));
  }

  lemma {:induction false} StaleBegun()
    requires After(2, Unclaimed(Checking(7, 0), Idle))
    ensures After(3, Unclaimed(Checking(7, 0), Loading(8)))
  {
    StaleStep(2, Unclaimed(Checking(7, 0), Idle), Unclaimed(Checking(7, 0), Loading(8)));
  }

  lemma {:induction false} StaleFollowed()
    requires After(3, Unclaimed(Checking(7, 0), Loading(8)))
    ensures After(4, Unclaimed(Checking(7, 0), Checking(8, 0)))
  {
    StaleStep(3, Unclaimed(Checking(7, 0), Loading(8)), Unclaimed(Checking(7, 0), Checking(8, 0)));
  }

  lemma {:induction false} StaleChecked()
    requires After(4, Unclaimed(Checking(7, 0), Checking(8, 0)))
    ensures After(5, Unclaimed(Checking(7, 0), Claiming(8, 0)))
  {
    assert Pow2(1) == 2;
    StaleStep(4, Unclaimed(Checking(7, 0), Checking(8, 0)), Unclaimed(Checking(7, 0), Claiming(8, 0)));
  }

  /** The ring of the example once producer 1 has claimed its place. */
  function Claimed(slots: seq<CmdSlot<int>>, p1: Producer<int>, accepted: seq<int>, c: Consumer<int>): Ring<int> {
    Ring(1, slots, 1, 0, [Checking(7, 0), p1], c, [8], [1], [[], accepted], [])
  }

  lemma {:induction false} StaleClaimed()
    requires After(5, Unclaimed(Checking(7, 0), Claiming(8, 0)))
    ensures After(6, Claimed(EMPTY_SLOTS, Writing(8, 0), [], Off))
  {
    StaleStep(5, Unclaimed(Checking(7, 0), Claiming(8, 0)), Claimed(EMPTY_SLOTS, Writing(8, 0), [], Off));
  }

  lemma {:induction false} StaleWritten()
    requires After(6, Claimed(EMPTY_SLOTS, Writing(8, 0), [], Off))
    ensures After(7, Claimed([CmdSlot(NEVER, Some(8)), CmdSlot(NEVER, None)], Publishing(8, 0), [], Off))
  {
    assert Slot(0, 1) == 0 && Pow2(1) == 2;
    StaleStep(6, Claimed(EMPTY_SLOTS, Writing(8, 0), [], Off),
              Claimed([CmdSlot(NEVER, Some(8)), CmdSlot(NEVER, None)], Publishing(8, 0), [], Off));
  }

  lemma {:induction false} StaleSubmitted()
    requires After(7, Claimed([CmdSlot(NEVER, Some(8)), CmdSlot(NEVER, None)], Publishing(8, 0), [], Off))
    ensures After(8, Claimed(FULL_SLOTS, Idle, [8], Off))
  {
    assert Slot(0, 1) == 0 && Shr(0, 1) == 0 && Pow2(1) == 2;
    var none: seq<seq<int>> := [[], []];
    assert [] + [8] == [8] && none[1 := [8]] == [[], [8]];
    StaleStep(7, Claimed([CmdSlot(NEVER, Some(8)), CmdSlot(NEVER, None)], Publishing(8, 0), [], Off),
              Claimed(FULL_SLOTS, Idle, [8], Off));
  }

  lemma {:induction false} StaleSeen()
    requires After(8, Claimed(FULL_SLOTS, Idle, [8], Off))
    ensures After(10, Claimed(FULL_SLOTS, Idle, [8], Ready(0)))
  {
    assert Slot(0, 1) == 0 && Shr(0, 1) == 0 && Pow2(1) == 2;
    StaleStep(8, Claimed(FULL_SLOTS, Idle, [8], Off), Claimed(FULL_SLOTS, Idle, [8], Loaded(0)));
    StaleStep(9, Claimed(FULL_SLOTS, Idle, [8], Loaded(0)), Claimed(FULL_SLOTS, Idle, [8], Ready(0)));
  }

  lemma {:induction false} StaleTaken()
    requires After(10, Claimed(FULL_SLOTS, Idle, [8], Ready(0)))
    ensures After(11, Claimed(FULL_SLOTS, Idle, [8], Taken(0, Some(8))))
  {
    assert Slot(0, 1) == 0 && Pow2(1) == 2;
    StaleStep(10, Claimed(FULL_SLOTS, Idle, [8], Ready(0)), Claimed(FULL_SLOTS, Idle, [8], Taken(0, Some(8))));
  }

  lemma {:induction false} StalePopped()
    requires After(11, Claimed(FULL_SLOTS, Idle, [8], Taken(0, Some(8))))
    ensures
      After(13, Claimed([CmdSlot(0, None), CmdSlot(NEVER, None)], Idle, [8], Off).(tail := 1, popped := [Some(8)]))
  {
    assert Slot(0, 1) == 0 && Pow2(1) == 2;
    var slots := [CmdSlot(0, None), CmdSlot(NEVER, None)];
    StaleStep(11, Claimed(FULL_SLOTS, Idle, [8], Taken(0, Some(8))), Claimed(slots, Idle, [8], Cleared(0, Some(8))));
    StaleStep(12, Claimed(slots, Idle, [8], Cleared(0, Some(8))),
              Claimed(slots, Idle, [8], Off).(tail := 1, popped := [Some(8)]));
  }

  /** Producer 1 has claimed a place but written nothing when the consumer looks at the slot. */
  const UNPUBLISHED_SCHEDULE: seq<Move<int>> := STALE_SCHEDULE[..6] + [PopLoadTail, PopLoadLap]

  /** A nil though a command is claimed: TryPop gives up on the slot that is not published yet. */
  lemma {:induction false} NilWithClaimOutstanding()
    ensures
      var s := Exec(Initial<int>(1, 2), UNPUBLISHED_SCHEDULE[..7]);
      && s.claims == [8] && s.popped == [] && s.tail == 0 && s.cursor == 1 && s.consumer == Loaded(0)
      && |s.slots| == s.Size() && |s.accepted| == |s.producers|
      && Next(s, UNPUBLISHED_SCHEDULE[7]).consumer == Off && Next(s, UNPUBLISHED_SCHEDULE[7]).popped == []
  {
    StaleLoaded();
    StaleBegun();
    StaleFollowed();
    StaleChecked();
    StaleClaimed();
    assert Pow2(1) == 2 && Slot(0, 1) == 0 && Shr(0, 1) == 0;
    assert UNPUBLISHED_SCHEDULE[..7][..6] == STALE_SCHEDULE[..6];
    var s := Claimed(EMPTY_SLOTS, Writing(8, 0), [], Off);
    assert Exec(Initial<int>(1, 2), UNPUBLISHED_SCHEDULE[..7]) == Next(s, PopLoadTail);
    assert Next(s, PopLoadTail) == Claimed(EMPTY_SLOTS, Writing(8, 0), [], Loaded(0));
  }

  // ----- Counting and draining -----

  lemma NextGrows<T>(s: Ring<T>, m: Move<T>)
    requires Inv(s)
    ensures s.tail <= Next(s, m).tail && s.claims <= Next(s, m).claims && s.popped <= Next(s, m).popped
  {
  }

  lemma {:induction false} ExecGrows<T>(s: Ring<T>, moves: seq<Move<T>>)
    requires Inv(s) && Ordered(s)
    ensures s.tail <= Exec(s, moves).tail && s.claims <= Exec(s, moves).claims && s.popped <= Exec(s, moves).popped
    decreases |moves|
  {
    if moves != [] {
      var before := moves[..|moves| - 1];
      ExecGrows(s, before);
      ExecKeeps(s, before);
      NextGrows(Exec(s, before), moves[|moves| - 1]);
    }
  }

  /** Len: the cursor loaded first, the tail later. */
  function LenOf(cursor: nat, tail: nat, size: nat): nat {
    if cursor <= tail then 0 else if cursor - tail > size then size else cursor - tail
  }

  /** Whatever happens between its two loads, Len never exceeds what was in the ring at the first, nor its size. */
  lemma {:induction false} LenNeverOverstates<T>(s: Ring<T>, moves: seq<Move<T>>)
    requires Inv(s) && Ordered(s)
    ensures LenOf(s.cursor, Exec(s, moves).tail, s.Size()) <= s.cursor - s.tail <= s.Size()
  {
    ExecGrows(s, moves);
  }

  /** It is the number of commands that were claimed at the first load and are not popped at the second. */
  lemma {:induction false} LenCounts<T>(s: Ring<T>, moves: seq<Move<T>>)
    requires Inv(s) && Ordered(s)
    ensures
      var left := |s.claims| - |Exec(s, moves).popped|;
      LenOf(s.cursor, Exec(s, moves).tail, s.Size()) == if left > 0 then left else 0
  {
    ExecGrows(s, moves);
    ExecKeeps(s, moves);
  }

  /** So it is exact in a ring that stands still. */
  lemma LenIsExact<T>(s: Ring<T>)
    requires Inv(s)
    ensures LenOf(s.cursor, s.tail, s.Size()) == |s.claims| - |s.popped|
  {
  }

  /** One undisturbed TryPop. */
  function PopOnce<T>(): seq<Move<T>> {
    [PopLoadTail, PopLoadLap, PopRead, PopClear, PopAdvance]
  }

  function Drain<T>(n: nat): seq<Move<T>> {
    if n == 0 then [] else PopOnce() + Drain(n - 1)
  }

  ghost predicate Quiet<T>(s: Ring<T>) {
    && s.consumer == Off
    && forall p :: 0 <= p < |s.producers| ==> !s.producers[p].Writing? && !s.producers[p].Publishing?
  }

  lemma {:induction false} ExecAppend<T>(s: Ring<T>, a: seq<Move<T>>, b: seq<Move<T>>)
    requires |s.slots| == s.Size() && |s.accepted| == |s.producers|
    ensures Exec(s, a + b) == Exec(Exec(s, a), b)
    decreases |b|
  {
    if b == [] {
      assert a + b == a;
    } else {
      assert (a + b)[..|a + b| - 1] == a + b[..|b| - 1];
      ExecAppend(s, a, b[..|b| - 1]);
    }
  }

  lemma {:induction false} PopOnceSees<T>(s: Ring<T>)
    requires Inv(s) && Quiet(s) && s.tail < s.cursor
    ensures Reached(s, PopOnce(), 2, s.(consumer := Ready(s.tail)))
  {
    var ms := PopOnce<T>();
    LapShowsPublished(s);
    assert ms[..0] == [] && Reached(s, ms, 0, s);
    ReachNext(s, ms, 0, s);
    ReachNext(s, ms, 1, s.(consumer := Loaded(s.tail)));
  }

  lemma {:induction false} PopOnceReads<T>(s: Ring<T>)
    requires Inv(s) && Quiet(s) && s.tail < s.cursor
    ensures Reached(s, PopOnce(), 3, s.(consumer := Taken(s.tail, s.At(s.tail).cmd)))
  {
    PopOnceSees(s);
    ReachNext(s, PopOnce<T>(), 2, s.(consumer := Ready(s.tail)));
  }

  lemma {:induction false} PopOnceTakes<T>(s: Ring<T>)
    requires Inv(s) && Quiet(s) && s.tail < s.cursor
    ensures Exec(s, PopOnce()).tail == s.tail + 1 && Quiet(Exec(s, PopOnce()))
    ensures Exec(s, PopOnce()).claims == s.claims && Exec(s, PopOnce()).cursor == s.cursor
  {
    var ms := PopOnce<T>();
    var cmd := s.At(s.tail).cmd;
    var cleared := s.Put(s.tail, s.At(s.tail).(cmd := None)).(consumer := Cleared(s.tail, cmd));
    PopOnceReads(s);
    assert ms[..5] == ms;
    ReachNext(s, ms, 3, s.(consumer := Taken(s.tail, cmd)));
    ReachNext(s, ms, 4, cleared);
    assert Exec(s, ms) == Next(cleared, PopAdvance);
  }

  ghost predicate Drained<T>(s: Ring<T>, r: Ring<T>) {
    r.tail == s.cursor && r.claims == s.claims
  }

  /** `moves` pops once, which leads to `once`, and then does `rest`. */
  lemma {:induction false} DrainOn<T>(s: Ring<T>, moves: seq<Move<T>>, rest: seq<Move<T>>, once: Ring<T>)
    requires Inv(s) && Inv(once) && once == Exec(s, PopOnce()) && moves == PopOnce() + rest
    requires once.cursor == s.cursor && once.claims == s.claims && Drained(once, Exec(once, rest))
    ensures Drained(s, Exec(s, moves))
  {
    ExecAppend(s, PopOnce(), rest);
  }

  /** The ring after one whole pop. */
  lemma {:induction false} PopOnceLeaves<T>(s: Ring<T>) returns (once: Ring<T>)
    requires Inv(s) && Ordered(s) && Quiet(s) && s.tail < s.cursor
    ensures once == Exec(s, PopOnce()) && Inv(once) && Ordered(once) && Quiet(once)
    ensures once.tail == s.tail + 1 && once.claims == s.claims && once.cursor == s.cursor
  {
    once := Exec(s, PopOnce());
    PopOnceTakes(s);
    ExecKeeps(s, PopOnce());
  }

  lemma {:induction false} DrainReachesHead<T>(s: Ring<T>, n: nat, moves: seq<Move<T>>)
    requires Inv(s) && Ordered(s) && Quiet(s) && n == s.cursor - s.tail && moves == Drain(n)
    ensures Drained(s, Exec(s, moves))
    decreases n
  {
    if n > 0 {
      var once := PopOnceLeaves(s);
      var rest := Drain(n - 1);
      DrainReachesHead(once, n - 1, rest);
      DrainOn(s, moves, rest, once);
    }
  }

  /** Once no producer is between claim and publication, the consumer alone can pop every claim. */
  lemma {:induction false} DrainsCompletely<T>(s: Ring<T>, end: Ring<T>)
    requires Inv(s) && Ordered(s) && Quiet(s) && end == Exec(s, Drain(s.cursor - s.tail))
    ensures |end.popped| == |s.claims| && forall i :: 0 <= i < |s.claims| ==> end.popped[i] == Some(s.claims[i])
  {
    var moves := Drain(s.cursor - s.tail);
    DrainReachesHead(s, s.cursor - s.tail, moves);
    ExecKeeps(s, moves);
    DrainedAll(s, end);
  }

  lemma DrainedAll<T>(s: Ring<T>, end: Ring<T>)
    requires Shape(s) && Shape(end) && Drained(s, end)
    ensures |end.popped| == |s.claims| && forall i :: 0 <= i < |s.claims| ==> end.popped[i] == Some(s.claims[i])
  {
  }

  /** A claim that is not published yet shows the previous lap, or the mark in the first lap. */
  lemma {:induction false} UnpublishedShowsPreviousLap<T>(s: Ring<T>, q: nat)
    requires Inv(s) && s.tail <= q < s.tail + s.Size() && (q >= s.cursor || InFlight(s, q))
    ensures s.At(q).lap == if q < s.Size() then NEVER else Shr(q - s.Size(), s.log2)
  {
    assert SlotOk(s, q);
    if q < s.Size() {
      FirstLap(q, s.log2);
    } else {
      NextLap(q - s.Size(), s.log2);
    }
  }

  // ----- Construction -----

  /** New: the slot count and its logarithm from the requested capacity. */
  function Create<T>(capacity: int, threads: nat): Ring<T>
    requires capacity <= TWO_62
  {
    var size := RoundUp(capacity, 2);
    RoundUpSize(capacity);
    Initial(Len(size) - 1, threads)
  }

  lemma {:induction false} RoundUpSize(capacity: int)
    requires capacity <= TWO_62
    ensures RoundUp(capacity, 2) >= 2 && 2 <= Len(RoundUp(capacity, 2)) <= 63
    ensures Pow2(Len(RoundUp(capacity, 2)) - 1) == RoundUp(capacity, 2)
  {
    if capacity > 2 {
      LenOf62(capacity);
      Pow2Signed(Len(capacity - 1));
      LenBounds(capacity - 1);
      LenOfPow2(Len(capacity - 1));
      Pow2Monotone(1, Len(capacity - 1));
    } else {
      assert Len(2) == 2 && Pow2(1) == 2;
    }
  }

  /** A new ring has as many slots as the rounding says, and the invariant holds of it. */
  lemma {:induction false} CreateIsSound<T>(capacity: int, threads: nat)
    requires capacity <= TWO_62
    ensures Create<T>(capacity, threads).Size() == RoundUp(capacity, 2) >= capacity && Inv(Create<T>(capacity, threads))
  {
    RoundUpSize(capacity);
    RoundUpIsLeastIff(capacity, 2);
    InitialInv<T>(Len(RoundUp(capacity, 2)) - 1, threads);
  }
}
