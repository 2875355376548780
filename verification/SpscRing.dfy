/**
 The single-producer single-consumer rings as one state machine. A slot is a record of cells that the producer fills
 and the consumer copies one cell at a time: the event ring has many cells and a producer that waits for room, the
 pointer ring has a single cell and a producer that gives up.
 */
module SpscRing {
  import opened Bits

  datatype Write<V> = Write(cell: nat, value: V)

  /** The cells after a list of writes. */
  function Overlay<V>(cells: seq<V>, ws: seq<Write<V>>): (r: seq<V>)
    requires forall i :: 0 <= i < |ws| ==> ws[i].cell < |cells|
    ensures |r| == |cells|
    decreases |ws|
  {
    if ws == [] then cells else Overlay(cells[ws[0].cell := ws[0].value], ws[1..])
  }

  /** A record together with the writes by which the producer puts it into a slot. */
  datatype Item<V> = Item(record: seq<V>, writes: seq<Write<V>>)

  ghost predicate InSlot<V>(width: nat, writes: seq<Write<V>>) {
    forall i :: 0 <= i < |writes| ==> writes[i].cell < width
  }

  /** Whatever the slot held before, the writes leave exactly the record in it. */
  ghost predicate Delivers<V(!new)>(width: nat, item: Item<V>) {
    && |item.record| == width && InSlot(width, item.writes)
    && forall cells: seq<V> :: |cells| == width ==> Overlay(cells, item.writes) == item.record
  }

  datatype Producer<V> =
    | Idle
    | Loading(item: Item<V>)                        // about to load its own head
    | Checking(item: Item<V>, head: nat)            // about to load the tail and compare
    | Filling(item: Item<V>, head: nat, done: nat)  // has done this many of the writes

  datatype Consumer<V> =
    | Off
    | Loaded(tail: nat)                // about to load the head and compare
    | Copying(tail: nat, got: seq<V>)  // has copied these cells

  /** The shared memory, the two threads, and the histories of what went in and what came out. */
  datatype Ring<V> = Ring(
    log2: nat, width: nat, waits: bool, slots: seq<seq<V>>, head: nat, tail: nat,
    producer: Producer<V>, consumer: Consumer<V>, pushed: seq<seq<V>>, popped: seq<seq<V>>)
  {
    function Size(): nat {
      Pow2(log2)
    }

    function At(q: nat): seq<V>
      requires |slots| == Size()
    {
      SlotBelow(q, log2);
      slots[Slot(q, log2)]
    }

    function Put(q: nat, cells: seq<V>): (r: Ring<V>)
      requires |slots| == Size()
      ensures |r.slots| == |slots| && r == this.(slots := r.slots)
    {
      SlotBelow(q, log2);
      this.(slots := slots[Slot(q, log2) := cells])
    }
  }

  function Initial<V>(log2: nat, blank: seq<V>, waits: bool): Ring<V> {
    Ring(log2, |blank|, waits, seq(Pow2(log2), i => blank), 0, 0, Idle, Off, [], [])
  }

  datatype Move<V> =
    | Begin(item: Item<V>)
    | LoadHead
    | LoadTail
    | WriteCell
    | AdvanceHead
    | PopLoadTail
    | PopLoadHead
    | PopCopy
    | PopAdvance

  /** The room test, on 64-bit words. */
  predicate Full<V>(s: Ring<V>, head: nat) {
    Sub64(head, s.tail) >= s.Size()
  }

  ghost predicate Formed<V>(s: Ring<V>) {
    |s.slots| == s.Size() && forall i :: 0 <= i < |s.slots| ==> |s.slots[i]| == s.width
  }

  ghost function ProducerMove<V(!new)>(s: Ring<V>, m: Move<V>): Ring<V>
    requires Formed(s)
  {
    match (m, s.producer)
    case (Begin(item), Idle) => if Delivers(s.width, item) then s.(producer := Loading(item)) else s
    case (LoadHead, Loading(item)) => s.(producer := Checking(item, s.head))
    case (LoadTail, Checking(item, head)) =>
      s.(producer := if !Full(s, head) then Filling(item, head, 0) else if s.waits then Loading(item) else Idle)
    case (WriteCell, Filling(item, head, done)) =>
      if done < |item.writes| && item.writes[done].cell < |s.At(head)| then
        var w := item.writes[done];
        s.Put(head, s.At(head)[w.cell := w.value]).(producer := Filling(item, head, done + 1))
      else s
    case (AdvanceHead, Filling(item, head, done)) =>
      if done == |item.writes| then
        s.(producer := Idle, head := s.head + 1, pushed := s.pushed + [item.record])
      else s
    case _ => s
  }

  function ConsumerMove<V>(s: Ring<V>, m: Move<V>): Ring<V>
    requires |s.slots| == s.Size()
  {
    match (m, s.consumer)
    case (PopLoadTail, Off) => s.(consumer := Loaded(s.tail))
    case (PopLoadHead, Loaded(t)) => s.(consumer := if s.head == t then Off else Copying(t, []))
    case (PopCopy, Copying(t, got)) =>
      if |got| < |s.At(t)| then s.(consumer := Copying(t, got + [s.At(t)[|got|]])) else s
    case (PopAdvance, Copying(t, got)) =>
      if |got| == |s.At(t)| then s.(consumer := Off, tail := s.tail + 1, popped := s.popped + [got]) else s
    case _ => s
  }

  predicate ByProducer<V>(m: Move<V>) {
    m.Begin? || m.LoadHead? || m.LoadTail? || m.WriteCell? || m.AdvanceHead?
  }

  ghost function Next<V(!new)>(s: Ring<V>, m: Move<V>): Ring<V>
    requires Formed(s)
  {
    if ByProducer(m) then ProducerMove(s, m) else ConsumerMove(s, m)
  }

  // ----- The invariant -----

  ghost predicate Shape<V>(s: Ring<V>) {
    && s.log2 <= 62 && Formed(s)
    && s.tail <= s.head <= s.tail + s.Size()
    && |s.pushed| == s.head && s.popped == s.pushed[..s.tail]
    && forall i :: 0 <= i < |s.pushed| ==> |s.pushed[i]| == s.width
  }

  ghost predicate HoldsAt<V>(s: Ring<V>, q: nat)
    requires |s.slots| == s.Size() && q < |s.pushed|
  {
    s.At(q) == s.pushed[q]
  }

  /** Slots between tail and head hold what was pushed. */
  ghost predicate Holds<V>(s: Ring<V>)
    requires Shape(s)
  {
    forall q {:trigger HoldsAt(s, q)} :: s.tail <= q < s.head ==> HoldsAt(s, q)
  }

  /** The remaining writes would complete the record. */
  ghost predicate ProducerOk<V(!new)>(s: Ring<V>)
    requires Shape(s)
  {
    match s.producer
    case Idle => true
    case Loading(item) => Delivers(s.width, item)
    case Checking(item, head) => Delivers(s.width, item) && head == s.head
    case Filling(item, head, done) =>
      && head == s.head < s.tail + s.Size() && done <= |item.writes| && InSlot(s.width, item.writes)
      && |s.At(head)| == s.width && |item.record| == s.width
      && Overlay(s.At(head), item.writes[done..]) == item.record
  }

  ghost predicate ConsumerOk<V>(s: Ring<V>)
    requires Shape(s)
  {
    match s.consumer
    case Off => true
    case Loaded(t) => t == s.tail
    case Copying(t, got) => t == s.tail < s.head && got <= s.pushed[t]
  }

  ghost predicate Inv<V(!new)>(s: Ring<V>) {
    Shape(s) && Holds(s) && ProducerOk(s) && ConsumerOk(s)
  }

  lemma InitialInv<V(!new)>(log2: nat, blank: seq<V>, waits: bool)
    requires log2 <= 62
    ensures Inv(Initial(log2, blank, waits))
  {
  }

  // ----- Every step keeps the invariant -----

  /** Writing at the head leaves every pushed slot alone. */
  lemma {:induction false} PutElsewhere<V>(s: Ring<V>, cells: seq<V>, q: nat)
    requires |s.slots| == s.Size() && s.tail <= q <= s.head < s.tail + s.Size()
    ensures s.Put(s.head, cells).At(q) == if q == s.head then cells else s.At(q)
  {
    SlotBelow(s.head, s.log2);
    SlotBelow(q, s.log2);
    if q < s.head {
      SlotsApart(q, s.head, s.log2);
    }
  }

  /** The producer finds the ring full exactly when it is. */
  lemma {:induction false} FullIff<V>(s: Ring<V>)
    requires Shape(s)
    ensures Full(s, s.head) <==> s.head == s.tail + s.Size()
  {
    Pow2Of62();
    Pow2Monotone(s.log2, 62);
  }

  /** Steps that touch neither slots nor counters. */
  lemma {:induction false} MoveIdle<V(!new)>(s: Ring<V>, producer: Producer<V>, consumer: Consumer<V>)
    requires Inv(s) && ProducerOk(s.(producer := producer)) && ConsumerOk(s.(consumer := consumer))
    ensures Inv(s.(producer := producer, consumer := consumer))
  {
    var s' := s.(producer := producer, consumer := consumer);
    forall q | s.tail <= q < s.head
      ensures HoldsAt(s', q)
    {
      assert HoldsAt(s, q);
    }
  }

  lemma {:induction false} StartFilling<V(!new)>(s: Ring<V>, item: Item<V>)
    requires Inv(s) && s.producer == Checking(item, s.head) && !Full(s, s.head)
    ensures ProducerOk(s.(producer := Filling(item, s.head, 0)))
  {
    FullIff(s);
    SlotBelow(s.head, s.log2);
    assert item.writes[0..] == item.writes;
  }

  lemma {:induction false} MoveWrite<V(!new)>(s: Ring<V>, item: Item<V>, done: nat)
    requires Inv(s) && s.producer == Filling(item, s.head, done) && done < |item.writes|
    ensures Inv(Next(s, WriteCell))
  {
    var w := item.writes[done];
    var cells := s.At(s.head)[w.cell := w.value];
    var s' := Next(s, WriteCell);
    assert item.writes[done..][1..] == item.writes[done + 1..];
    forall q | s.tail <= q < s.head
      ensures HoldsAt(s', q)
    {
      assert HoldsAt(s, q);
      PutElsewhere(s, cells, q);
    }
    PutElsewhere(s, cells, s.head);
  }

  lemma {:induction false} MoveFinish<V(!new)>(s: Ring<V>, item: Item<V>, done: nat)
    requires Inv(s) && s.producer == Filling(item, s.head, done) && done == |item.writes|
    ensures Inv(Next(s, AdvanceHead))
  {
    var s' := Next(s, AdvanceHead);
    assert item.writes[done..] == [];
    forall q | s'.tail <= q < s'.head
      ensures HoldsAt(s', q)
    {
      assert q < s.head ==> HoldsAt(s, q);
    }
    assert s'.pushed[..s.tail] == s.pushed[..s.tail];
  }

  lemma {:induction false} MoveCopy<V(!new)>(s: Ring<V>, t: nat, got: seq<V>)
    requires Inv(s) && s.consumer == Copying(t, got) && |got| < |s.At(t)|
    ensures Inv(Next(s, PopCopy))
  {
    assert HoldsAt(s, t);
    MoveIdle(s, s.producer, Copying(t, got + [s.At(t)[|got|]]));
  }

  lemma {:induction false} MoveLeave<V(!new)>(s: Ring<V>, t: nat, got: seq<V>)
    requires Inv(s) && s.consumer == Copying(t, got) && |got| == |s.At(t)|
    ensures Inv(Next(s, PopAdvance))
  {
    var s' := Next(s, PopAdvance);
    assert HoldsAt(s, t);
    assert got == s.pushed[t];
    assert s.pushed[..t + 1] == s.pushed[..t] + [s.pushed[t]];
    forall q | s'.tail <= q < s'.head
      ensures HoldsAt(s', q)
    {
      assert HoldsAt(s, q);
    }
  }

  lemma {:induction false} ProducerMoveKeeps<V(!new)>(s: Ring<V>, m: Move<V>)
    requires Inv(s) && ByProducer(m)
    ensures Inv(Next(s, m))
  {
    match (m, s.producer)
    case (Begin(item), Idle) =>
      if Delivers(s.width, item) {
        MoveIdle(s, Loading(item), s.consumer);
      }
    case (LoadHead, Loading(item)) => MoveIdle(s, Checking(item, s.head), s.consumer);
    case (LoadTail, Checking(item, head)) =>
      if !Full(s, head) {
        StartFilling(s, item);
        MoveIdle(s, Filling(item, head, 0), s.consumer);
      } else {
        MoveIdle(s, if s.waits then Loading(item) else Idle, s.consumer);
      }
    case (WriteCell, Filling(item, head, done)) =>
      if done < |item.writes| {
        MoveWrite(s, item, done);
      }
    case (AdvanceHead, Filling(item, head, done)) =>
      if done == |item.writes| {
        MoveFinish(s, item, done);
      }
    case _ =>
  }

  lemma {:induction false} ConsumerMoveKeeps<V(!new)>(s: Ring<V>, m: Move<V>)
    requires Inv(s) && !ByProducer(m)
    ensures Inv(Next(s, m))
  {
    match (m, s.consumer)
    case (PopLoadTail, Off) => MoveIdle(s, s.producer, Loaded(s.tail));
    case (PopLoadHead, Loaded(t)) => MoveIdle(s, s.producer, if s.head == t then Off else Copying(t, []));
    case (PopCopy, Copying(t, got)) =>
      if |got| < |s.At(t)| {
        MoveCopy(s, t, got);
      }
    case (PopAdvance, Copying(t, got)) =>
      if |got| == |s.At(t)| {
        MoveLeave(s, t, got);
      }
    case _ =>
  }

  lemma {:induction false} NextKeeps<V(!new)>(s: Ring<V>, m: Move<V>)
    requires Inv(s)
    ensures Inv(Next(s, m))
  {
    if ByProducer(m) {
      ProducerMoveKeeps(s, m);
    } else {
      ConsumerMoveKeeps(s, m);
    }
  }

  // ----- Runs -----

  /** A schedule of both threads, interleaved in any way. */
  ghost function Exec<V(!new)>(s: Ring<V>, moves: seq<Move<V>>): (r: Ring<V>)
    requires Inv(s)
    ensures Inv(r)
    decreases |moves|
  {
    if moves == [] then s
    else
      var before := Exec(s, moves[..|moves| - 1]);
      NextKeeps(before, moves[|moves| - 1]);
      Next(before, moves[|moves| - 1])
  }

  /**
   Under every interleaving the records popped are exactly the first ones pushed, whole and in order, and at most
   one ring size behind.
   */
  lemma {:induction false} PopsFollowPushes<V(!new)>(log2: nat, blank: seq<V>, waits: bool, moves: seq<Move<V>>)
    requires log2 <= 62
    ensures Inv(Initial(log2, blank, waits))
    ensures
      var s := Exec(Initial(log2, blank, waits), moves);
      && s.popped <= s.pushed && |s.pushed| <= |s.popped| + Pow2(log2)
      && forall i :: 0 <= i < |s.popped| ==> |s.popped[i]| == |blank|
  {
    InitialInv(log2, blank, waits);
    ExecFixed(Initial(log2, blank, waits), moves);
  }

  lemma NextFixed<V(!new)>(s: Ring<V>, m: Move<V>)
    requires Formed(s)
    ensures Next(s, m).log2 == s.log2 && Next(s, m).width == s.width
  {
  }

  lemma {:induction false} ExecFixed<V(!new)>(s: Ring<V>, moves: seq<Move<V>>)
    requires Inv(s)
    ensures Exec(s, moves).log2 == s.log2 && Exec(s, moves).width == s.width
    decreases |moves|
  {
    if moves != [] {
      var before := moves[..|moves| - 1];
      ExecFixed(s, before);
      NextFixed(Exec(s, before), moves[|moves| - 1]);
    }
  }

  /**
   The producer is turned away exactly when the ring is full at the instant it loads the tail; it then tries the same
   record again if it is one that waits, and gives up if not.
   */
  lemma {:induction false} TurnedAwayIff<V(!new)>(s: Ring<V>, item: Item<V>, head: nat)
    requires Inv(s) && s.producer == Checking(item, head)
    ensures
      Next(s, LoadTail).producer ==
      if s.head - s.tail < s.Size() then Filling(item, s.head, 0) else if s.waits then Loading(item) else Idle
  {
    FullIff(s);
  }

  /** The consumer is turned away exactly when the ring is empty at the instant it loads the head. */
  lemma EmptyIff<V(!new)>(s: Ring<V>, t: nat)
    requires Inv(s) && s.consumer == Loaded(t)
    ensures Next(s, PopLoadHead).consumer == Off <==> s.head == s.tail
  {
  }

  /** While a record is being written and another copied, they are in different slots. */
  lemma {:induction false} WriterAndReaderApart<V(!new)>(s: Ring<V>)
    requires Inv(s) && s.producer.Filling? && s.consumer.Copying?
    ensures Slot(s.producer.head, s.log2) != Slot(s.consumer.tail, s.log2)
  {
    SlotsApart(s.tail, s.head, s.log2);
  }

  /** Len: the head loaded first, the tail later. */
  function LenOf(head: nat, tail: nat): nat {
    if head < tail then 0 else head - tail
  }

  lemma NextGrows<V(!new)>(s: Ring<V>, m: Move<V>)
    requires Inv(s)
    ensures s.tail <= Next(s, m).tail
  {
  }

  lemma {:induction false} ExecGrows<V(!new)>(s: Ring<V>, moves: seq<Move<V>>)
    requires Inv(s)
    ensures s.tail <= Exec(s, moves).tail
    decreases |moves|
  {
    if moves != [] {
      ExecGrows(s, moves[..|moves| - 1]);
      NextGrows(Exec(s, moves[..|moves| - 1]), moves[|moves| - 1]);
    }
  }

  /** Whatever happens between its two loads, Len never exceeds what was in the ring at the first. */
  lemma {:induction false} LenNeverOverstates<V(!new)>(s: Ring<V>, moves: seq<Move<V>>)
    requires Inv(s)
    ensures LenOf(s.head, Exec(s, moves).tail) <= s.head - s.tail <= s.Size()
  {
    ExecGrows(s, moves);
  }

  /** It is the number of records that were pushed at the first load and are not popped at the second. */
  lemma {:induction false} LenCounts<V(!new)>(s: Ring<V>, moves: seq<Move<V>>)
    requires Inv(s)
    ensures
      var left := |s.pushed| - |Exec(s, moves).popped|;
      LenOf(s.head, Exec(s, moves).tail) == if left > 0 then left else 0
  {
    ExecGrows(s, moves);
  }

  /** So it is exact in a ring that stands still. */
  lemma LenIsExact<V(!new)>(s: Ring<V>)
    requires Inv(s)
    ensures LenOf(s.head, s.tail) == |s.pushed| - |s.popped|
  {
  }
}
