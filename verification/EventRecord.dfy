/**
 Outbound events as the records of a ring slot: the cells of a slot, the field writes of the three push operations
 and of a pointer store, and what a consumer reads back.
 */
module EventRecord {
  import opened Types
  import opened FlatBook
  import opened EngineSpec
  import opened SpscRing

  // ----- When a list of writes delivers a record -----

  /** What the last write to a cell stores. */
  function LastWrite<V>(ws: seq<Write<V>>, i: nat): Option<V> {
    if ws == [] then None
    else if LastWrite(ws[1..], i).Some? then LastWrite(ws[1..], i)
    else if ws[0].cell == i then Some(ws[0].value)
    else None
  }

  lemma {:induction false} OverlayAt<V>(cells: seq<V>, ws: seq<Write<V>>, i: nat)
    requires InSlot(|cells|, ws) && i < |cells|
    ensures Overlay(cells, ws)[i] == if LastWrite(ws, i).Some? then LastWrite(ws, i).value else cells[i]
    decreases |ws|
  {
    if ws != [] {
      OverlayAt(cells[ws[0].cell := ws[0].value], ws[1..], i);
    }
  }

  /** Writing every cell of the record somewhere, last, delivers the record. */
  lemma {:induction false} LastWritesDeliver<V(!new)>(width: nat, item: Item<V>)
    requires |item.record| == width && InSlot(width, item.writes)
    requires forall i :: 0 <= i < width ==> LastWrite(item.writes, i) == Some(item.record[i])
    ensures Delivers(width, item)
  {
    forall cells: seq<V> | |cells| == width
      ensures Overlay(cells, item.writes) == item.record
    {
      forall i | 0 <= i < width
        ensures Overlay(cells, item.writes)[i] == item.record[i]
      {
        OverlayAt(cells, item.writes, i);
      }
    }
  }

  lemma {:induction false} LastWriteAppend<V>(a: seq<Write<V>>, b: seq<Write<V>>, i: nat)
    ensures LastWrite(a + b, i) == if LastWrite(b, i).Some? then LastWrite(b, i) else LastWrite(a, i)
  {
    if a == [] {
      assert a + b == b;
    } else {
      assert (a + b)[1..] == a[1..] + b;
      LastWriteAppend(a[1..], b, i);
    }
  }

  ghost predicate DistinctCells<V>(ws: seq<Write<V>>) {
    forall j, k :: 0 <= j < k < |ws| ==> ws[j].cell != ws[k].cell
  }

  ghost predicate Untouched<V>(ws: seq<Write<V>>, i: nat) {
    forall j :: 0 <= j < |ws| ==> ws[j].cell != i
  }

  lemma {:induction false} LastWriteFound<V>(ws: seq<Write<V>>, j: nat)
    requires DistinctCells(ws) && j < |ws|
    ensures LastWrite(ws, ws[j].cell) == Some(ws[j].value)
  {
    var rest := ws[1..];
    assert forall k :: 0 <= k < |rest| ==> rest[k] == ws[k + 1];
    if j > 0 {
      LastWriteFound(rest, j - 1);
    } else {
      LastWriteNone(rest, ws[0].cell);
    }
  }

  lemma {:induction false} LastWriteNone<V>(ws: seq<Write<V>>, i: nat)
    requires Untouched(ws, i)
    ensures LastWrite(ws, i) == None
  {
    if ws != [] {
      var rest := ws[1..];
      assert forall k :: 0 <= k < |rest| ==> rest[k] == ws[k + 1];
      LastWriteNone(rest, i);
    }
  }

  /** A pointer store: one write to the only cell. */
  function PointerItem<V>(p: V): Item<V> {
    Item([p], [Write(0, p)])
  }

  lemma {:induction false} PointerDelivers<V(!new)>(p: V)
    ensures Delivers(1, PointerItem(p))
  {
    forall cells: seq<V> | |cells| == 1
      ensures Overlay(cells, [Write(0, p)]) == [p]
    {
      assert [Write(0, p)][1..] == [];
    }
  }

  // ----- The cells of an event slot -----

  datatype Cell = Num(value: int) | Byte(byte: char)

  const FIELDS: nat := 12
  const REASON_BYTES: nat := 32
  const WIDTH: nat := FIELDS + REASON_BYTES

  /** What zeroing a slot leaves in a cell. */
  function Zero(i: nat): Cell {
    if i < FIELDS then Num(0) else Byte('\0')
  }

  function ReasonCells(reason: string): (r: seq<Cell>)
    ensures |r| == REASON_BYTES
  {
    seq(REASON_BYTES, i requires 0 <= i => Byte(if i < |reason| then reason[i] else '\0'))
  }

  function Fields(e: RawEvent): (r: seq<Cell>)
    ensures |r| == FIELDS
  {
    [Num(e.evtType), Num(e.orderStatus), Num(e.orderType), Num(e.side), Num(e.seqNo), Num(e.orderId),
     Num(e.makerOrderId), Num(e.tradeId), Num(e.price), Num(e.quantity), Num(e.remaining), Num(e.timestamp)]
  }

  function Encode(e: RawEvent): (r: seq<Cell>)
    ensures |r| == WIDTH
  {
    Fields(e) + ReasonCells(e.reason)
  }

  /** A reason as the consumer reads it: up to the first zero byte. */
  function ReadReason(bytes: seq<Cell>): string {
    if bytes == [] || !bytes[0].Byte? || bytes[0].byte == '\0' then ""
    else [bytes[0].byte] + ReadReason(bytes[1..])
  }

  /** A reason that fits its bytes with the terminating zero, and contains none. */
  predicate Storable(reason: string) {
    |reason| < REASON_BYTES && forall i :: 0 <= i < |reason| ==> reason[i] != '\0'
  }

  lemma {:induction false} ReadReasonBack(reason: string, bytes: seq<Cell>)
    requires |reason| < |bytes| && forall i :: 0 <= i < |reason| ==> reason[i] != '\0'
    requires forall i :: 0 <= i < |bytes| ==> bytes[i] == Byte(if i < |reason| then reason[i] else '\0')
    ensures ReadReason(bytes) == reason
  {
    if reason != "" {
      ReadReasonBack(reason[1..], bytes[1..]);
      assert [reason[0]] + reason[1..] == reason;
    }
  }

  /**
   A consumer reads back the reason that was given exactly if it has at most 31 characters; two of the engine's four
   reasons are longer.
   */
  lemma {:induction false} ReasonSurvivesIff(reason: string)
    requires forall i :: 0 <= i < |reason| ==> reason[i] != '\0'
    ensures ReadReason(ReasonCells(Clip(reason))) == Clip(reason)
    ensures ReadReason(ReasonCells(Clip(reason))) == reason <==> |reason| <= REASON_LIMIT
  {
    ReadReasonBack(Clip(reason), ReasonCells(Clip(reason)));
  }

  lemma {:induction false} CancelReasonIsClipped()
    ensures ReadReason(ReasonCells(Clip("cancel rejected: order not found"))) == "cancel rejected: order not foun"
  {
    var reason := "cancel rejected: order not found";
    assert reason[..REASON_LIMIT] == "cancel rejected: order not foun";
    ReasonSurvivesIff(reason);
  }

  lemma {:induction false} PostOnlyReasonIsClipped()
    ensures
      ReadReason(ReasonCells(Clip("post-only order would immediately match"))) == "post-only order would immediate"
  {
    var reason := "post-only order would immediately match";
    assert reason[..REASON_LIMIT] == "post-only order would immediate";
    ReasonSurvivesIff(reason);
  }

  /** Nothing of an event is lost in its slot: events with storable reasons are determined by their cells. */
  lemma {:induction false} EncodeDetermines(e: RawEvent, f: RawEvent)
    requires Storable(e.reason) && Storable(f.reason) && Encode(e) == Encode(f)
    ensures e == f
  {
    var a, b := ReasonCells(e.reason), ReasonCells(f.reason);
    assert Encode(e)[..FIELDS] == Fields(e) && Encode(f)[..FIELDS] == Fields(f);
    assert Encode(e)[FIELDS..] == a && Encode(f)[FIELDS..] == b;
    ReadReasonBack(e.reason, a);
    ReadReasonBack(f.reason, b);
    SameFields(e, f);
  }

  lemma {:induction false} SameFields(e: RawEvent, f: RawEvent)
    requires Fields(e) == Fields(f)
    ensures e == f.(reason := e.reason)
  {
    var a, b := Fields(e), Fields(f);
    assert a[0] == b[0] && a[1] == b[1] && a[2] == b[2] && a[3] == b[3] && a[4] == b[4] && a[5] == b[5];
    assert a[6] == b[6] && a[7] == b[7] && a[8] == b[8] && a[9] == b[9] && a[10] == b[10] && a[11] == b[11];
  }

  // ----- The writes of the push operations -----

  function ZeroWrites(n: nat): seq<Write<Cell>> {
    if n == 0 then [] else ZeroWrites(n - 1) + [Write(n - 1, Zero(n - 1))]
  }

  lemma {:induction false} ZeroWritesAll(n: nat, i: nat)
    ensures InSlot(n, ZeroWrites(n))
    ensures i < n ==> LastWrite(ZeroWrites(n), i) == Some(Zero(i))
  {
    if n > 0 {
      ZeroWritesAll(n - 1, i);
      LastWriteAppend(ZeroWrites(n - 1), [Write(n - 1, Zero(n - 1))], i);
      assert [Write(n - 1, Zero(n - 1))][1..] == [];
    }
  }

  /** Zeroing the slot and then writing the cells that are not zero delivers the record. */
  lemma {:induction false} ZeroThenWrite(record: seq<Cell>, ws: seq<Write<Cell>>)
    requires |record| == WIDTH && InSlot(WIDTH, ws) && DistinctCells(ws)
    requires forall j :: 0 <= j < |ws| ==> record[ws[j].cell] == ws[j].value
    requires forall i :: 0 <= i < WIDTH && Untouched(ws, i) ==> record[i] == Zero(i)
    ensures Delivers(WIDTH, Item(record, ZeroWrites(WIDTH) + ws))
  {
    var all := ZeroWrites(WIDTH) + ws;
    ZeroWritesAll(WIDTH, 0);
    forall i | 0 <= i < WIDTH
      ensures LastWrite(all, i) == Some(record[i])
    {
      ZeroWritesAll(WIDTH, i);
      LastWriteAppend(ZeroWrites(WIDTH), ws, i);
      if j :| 0 <= j < |ws| && ws[j].cell == i {
        LastWriteFound(ws, j);
      } else {
        LastWriteNone(ws, i);
      }
    }
    LastWritesDeliver(WIDTH, Item(record, all));
  }

  function HeaderWrites(kind: int, seqNo: nat): seq<Write<Cell>> {
    [Write(0, Num(kind)), Write(4, Num(seqNo))]
  }

  function OrderWrites(o: OrderRec): seq<Write<Cell>> {
    [Write(1, Num(o.status)), Write(2, Num(o.typ)), Write(3, Num(o.side.Code())), Write(5, Num(o.id)),
     Write(8, Num(o.price)), Write(9, Num(o.quantity)), Write(10, Num(o.remaining)), Write(11, Num(o.timestamp))]
  }

  /** Copying a clipped reason, then its terminating zero. */
  function ReasonWrites(reason: string): (ws: seq<Write<Cell>>)
    ensures |ws| == |reason| + 1
  {
    seq(|reason| + 1, i requires 0 <= i <= |reason| =>
      Write(FIELDS + i, Byte(if i < |reason| then reason[i] else '\0')))
  }

  function TradeWrites(seqNo: nat, taker: OrderRec, tradeId: nat, makerId: nat, makerStatus: int, price: int, qty: int)
    : seq<Write<Cell>>
  {
    HeaderWrites(EVT_TRADE, seqNo) +
    [Write(7, Num(tradeId)), Write(6, Num(makerId)), Write(1, Num(makerStatus)), Write(8, Num(price)),
     Write(9, Num(qty)), Write(5, Num(taker.id)), Write(3, Num(taker.side.Code())), Write(2, Num(taker.typ)),
     Write(10, Num(taker.remaining)), Write(11, Num(taker.timestamp))]
  }

  function SlotItem(e: RawEvent, ws: seq<Write<Cell>>): Item<Cell> {
    Item(Encode(e), ZeroWrites(WIDTH) + ws)
  }

  /** Field writes alone: right where they write, and everything they leave out is zero in the event. */
  lemma {:induction false} FieldsDeliver(e: RawEvent, ws: seq<Write<Cell>>)
    requires e.reason == "" && DistinctCells(ws) && InSlot(FIELDS, ws)
    requires forall j :: 0 <= j < |ws| ==> Fields(e)[ws[j].cell] == ws[j].value
    requires forall i :: 0 <= i < FIELDS && Untouched(ws, i) ==> Fields(e)[i] == Num(0)
    ensures Delivers(WIDTH, SlotItem(e, ws))
  {
    forall i | 0 <= i < WIDTH
      ensures Encode(e)[i] == if i < FIELDS then Fields(e)[i] else Byte('\0')
    {
    }
    ZeroThenWrite(Encode(e), ws);
  }

  lemma {:induction false} UntouchedPrefix<V>(a: seq<Write<V>>, b: seq<Write<V>>, i: nat)
    requires Untouched(a + b, i)
    ensures Untouched(a, i)
  {
    forall j | 0 <= j < |a|
      ensures a[j].cell != i
    {
      assert (a + b)[j] == a[j];
    }
  }

  lemma {:induction false} ReasonTouches(ws: seq<Write<Cell>>, reason: string, i: nat)
    requires FIELDS <= i <= FIELDS + |reason|
    ensures !Untouched(ws + ReasonWrites(reason), i)
  {
    assert (ws + ReasonWrites(reason))[|ws| + (i - FIELDS)].cell == i;
  }

  /** Field writes followed by a reason. */
  lemma {:induction false} ReasonDelivers(e: RawEvent, ws: seq<Write<Cell>>)
    requires |e.reason| < REASON_BYTES && DistinctCells(ws) && InSlot(FIELDS, ws)
    requires forall j :: 0 <= j < |ws| ==> Fields(e)[ws[j].cell] == ws[j].value
    requires forall i :: 0 <= i < FIELDS && Untouched(ws, i) ==> Fields(e)[i] == Num(0)
    ensures Delivers(WIDTH, SlotItem(e, ws + ReasonWrites(e.reason)))
  {
    var rs := ReasonWrites(e.reason);
    var all := ws + rs;
    forall j | 0 <= j < |all|
      ensures all[j].cell < WIDTH && Encode(e)[all[j].cell] == all[j].value
    {
      assert all[j] == if j < |ws| then ws[j] else rs[j - |ws|];
    }
    forall i | 0 <= i < WIDTH && Untouched(all, i)
      ensures Encode(e)[i] == Zero(i)
    {
      if i < FIELDS {
        UntouchedPrefix(ws, rs, i);
      } else if i - FIELDS < |rs| {
        ReasonTouches(ws, e.reason, i);
      }
    }
    ReasonDistinct(ws, e.reason);
    ZeroThenWrite(Encode(e), all);
  }

  lemma {:induction false} ReasonDistinct(ws: seq<Write<Cell>>, reason: string)
    requires DistinctCells(ws) && InSlot(FIELDS, ws)
    ensures DistinctCells(ws + ReasonWrites(reason))
  {
    var rs := ReasonWrites(reason);
    var all := ws + rs;
    forall j, k | 0 <= j < k < |all|
      ensures all[j].cell != all[k].cell
    {
      assert all[k] == if k < |ws| then ws[k] else rs[k - |ws|];
      assert all[j] == if j < |ws| then ws[j] else rs[j - |ws|];
    }
  }

  /** The writes of PushOrder deliver the order event. */
  lemma {:induction false} PushOrderDelivers(kind: int, seqNo: nat, o: OrderRec)
    ensures Delivers(WIDTH, SlotItem(OrderEvent(kind, seqNo, o, ""), HeaderWrites(kind, seqNo) + OrderWrites(o)))
  {
    var e := OrderEvent(kind, seqNo, o, "");
    OrderFields(e, kind, seqNo, o);
    FieldsDeliver(e, HeaderWrites(kind, seqNo) + OrderWrites(o));
  }

  lemma {:induction false} OrderCells(kind: int, seqNo: nat, o: OrderRec)
    ensures
      var ws := HeaderWrites(kind, seqNo) + OrderWrites(o);
      && DistinctCells(ws) && InSlot(FIELDS, ws)
      && (forall i :: 0 <= i < FIELDS && Untouched(ws, i) ==> i == 6 || i == 7)
  {
    var ws := HeaderWrites(kind, seqNo) + OrderWrites(o);
    forall i | 0 <= i < FIELDS && Untouched(ws, i)
      ensures i == 6 || i == 7
    {
      assert ws[0].cell == 0 && ws[1].cell == 4 && ws[2].cell == 1 && ws[3].cell == 2 && ws[4].cell == 3;
      assert ws[5].cell == 5 && ws[6].cell == 8 && ws[7].cell == 9 && ws[8].cell == 10 && ws[9].cell == 11;
    }
  }

  lemma {:induction false} OrderFields(e: RawEvent, kind: int, seqNo: nat, o: OrderRec)
    requires e == OrderEvent(kind, seqNo, o, e.reason)
    ensures
      var ws := HeaderWrites(kind, seqNo) + OrderWrites(o);
      && DistinctCells(ws) && InSlot(FIELDS, ws)
      && (forall j :: 0 <= j < |ws| ==> Fields(e)[ws[j].cell] == ws[j].value)
      && (forall i :: 0 <= i < FIELDS && Untouched(ws, i) ==> Fields(e)[i] == Num(0))
  {
    OrderCells(kind, seqNo, o);
  }

  /** So do the writes of PushOrderWithReason, with the reason clipped. */
  lemma {:induction false} PushReasonDelivers(kind: int, seqNo: nat, o: OrderRec, reason: string)
    ensures Delivers(WIDTH, SlotItem(OrderEvent(kind, seqNo, o, reason),
                                     HeaderWrites(kind, seqNo) + OrderWrites(o) + ReasonWrites(Clip(reason))))
  {
    var e := OrderEvent(kind, seqNo, o, reason);
    ClipTwice(reason);
    OrderFields(e, kind, seqNo, o);
    ReasonDelivers(e, HeaderWrites(kind, seqNo) + OrderWrites(o));
  }

  lemma ClipTwice(reason: string)
    ensures Clip(Clip(reason)) == Clip(reason) && |Clip(reason)| < REASON_BYTES
  {
  }

  /** Without an order, only the header and the reason are written. */
  lemma {:induction false} PushBareDelivers(kind: int, seqNo: nat, reason: string)
    ensures Delivers(WIDTH, SlotItem(NoOrderEvent(kind, seqNo, reason),
                                     HeaderWrites(kind, seqNo) + ReasonWrites(Clip(reason))))
  {
    var e := NoOrderEvent(kind, seqNo, reason);
    var ws := HeaderWrites(kind, seqNo);
    forall i | 0 <= i < FIELDS && Untouched(ws, i)
      ensures Fields(e)[i] == Num(0)
    {
      assert ws[0].cell == 0 && ws[1].cell == 4;
    }
    ReasonDelivers(e, ws);
  }

  /** The writes of PushTrade deliver the trade event. */
  lemma {:induction false} PushTradeDelivers(seqNo: nat, tradeId: nat, taker: OrderRec, f: Fill)
    ensures Delivers(WIDTH, SlotItem(TradeEvent(seqNo, tradeId, taker, f),
                                     TradeWrites(seqNo, taker, tradeId, f.maker.id, f.maker.status, f.maker.price,
                                                 f.qty)))
  {
    var e := TradeEvent(seqNo, tradeId, taker, f);
    var ws := TradeWrites(seqNo, taker, tradeId, f.maker.id, f.maker.status, f.maker.price, f.qty);
    forall i: nat | i < FIELDS
      ensures !Untouched(ws, i)
    {
      assert ws[0].cell == 0 && ws[1].cell == 4 && ws[2].cell == 7 && ws[3].cell == 6 && ws[4].cell == 1;
      assert ws[5].cell == 8 && ws[6].cell == 9 && ws[7].cell == 5 && ws[8].cell == 3 && ws[9].cell == 2;
      assert ws[10].cell == 10 && ws[11].cell == 11;
    }
    FieldsDeliver(e, ws);
  }

  // ----- Every event is somebody's push -----

  /** A call of one of the push operations. */
  datatype PushCall =
    | PushOrder(kind: int, seqNo: nat, order: OrderRec)
    | PushReason(kind: int, seqNo: nat, order: OrderRec, reason: string)
    | PushBare(kind: int, seqNo: nat, reason: string)
    | PushTrade(seqNo: nat, tradeId: nat, taker: OrderRec, fill: Fill)
  {
    function Event(): RawEvent {
      match this
      case PushOrder(kind, seqNo, o) => OrderEvent(kind, seqNo, o, "")
      case PushReason(kind, seqNo, o, reason) => OrderEvent(kind, seqNo, o, reason)
      case PushBare(kind, seqNo, reason) => NoOrderEvent(kind, seqNo, reason)
      case PushTrade(seqNo, tradeId, taker, f) => TradeEvent(seqNo, tradeId, taker, f)
    }

    function Writes(): seq<Write<Cell>> {
      match this
      case PushOrder(kind, seqNo, o) => HeaderWrites(kind, seqNo) + OrderWrites(o)
      case PushReason(kind, seqNo, o, reason) =>
        HeaderWrites(kind, seqNo) + OrderWrites(o) + ReasonWrites(Clip(reason))
      case PushBare(kind, seqNo, reason) => HeaderWrites(kind, seqNo) + ReasonWrites(Clip(reason))
      case PushTrade(seqNo, tradeId, taker, f) =>
        TradeWrites(seqNo, taker, tradeId, f.maker.id, f.maker.status, f.maker.price, f.qty)
    }

    function Filling(): Item<Cell> {
      SlotItem(Event(), Writes())
    }
  }

  /** Whichever operation is called, its writes deliver its event. */
  lemma {:induction false} CallDelivers(call: PushCall)
    ensures Delivers(WIDTH, call.Filling())
  {
    match call
    case PushOrder(kind, seqNo, o) => PushOrderDelivers(kind, seqNo, o);
    case PushReason(kind, seqNo, o, reason) => PushReasonDelivers(kind, seqNo, o, reason);
    case PushBare(kind, seqNo, reason) => PushBareDelivers(kind, seqNo, reason);
    case PushTrade(seqNo, tradeId, taker, f) => PushTradeDelivers(seqNo, tradeId, taker, f);
  }

  ghost predicate Emittable(e: RawEvent) {
    exists call: PushCall :: call.Event() == e
  }

  ghost predicate AllEmittable(es: seq<RawEvent>) {
    forall i :: 0 <= i < |es| ==> Emittable(es[i])
  }

  lemma {:induction false} OrderEmittable(kind: int, seqNo: nat, o: OrderRec)
    ensures Emittable(OrderEvent(kind, seqNo, o, ""))
  {
    assert PushOrder(kind, seqNo, o).Event() == OrderEvent(kind, seqNo, o, "");
  }

  lemma {:induction false} RejectEmittable(s: State, o: OrderRec, reason: string)
    ensures AllEmittable(Reject(s, o, reason).events)
  {
    var rejected := o.(status := STATUS_REJECTED);
    assert PushReason(EVT_REJECTED, s.seqNo, rejected, reason).Event() == Reject(s, o, reason).events[0];
  }

  lemma {:induction false} TradesEmittable(seqNo: nat, tradeSeq: nat, taker: OrderRec, fills: seq<Fill>)
    ensures AllEmittable(TradeEvents(seqNo, tradeSeq, taker, fills))
    decreases |fills|
  {
    if fills != [] {
      TradesEmittable(seqNo, tradeSeq + 1, taker, fills[1..]);
      var e := TradeEvent(seqNo, tradeSeq + 1, taker, fills[0]);
      assert PushTrade(seqNo, tradeSeq + 1, taker, fills[0]).Event() == e;
    }
  }

  lemma {:induction false} RestEmittable(s: State, o: OrderRec)
    ensures AllEmittable(Rest(s, o).events)
  {
    OrderEmittable(EVT_ACCEPTED, s.seqNo, o.(status := STATUS_OPEN));
  }

  lemma {:induction false} SettleEmittable(s: State, taker: OrderRec)
    ensures AllEmittable(Settle(s, taker).events)
  {
    RestEmittable(s, taker);
    OrderEmittable(EVT_CANCELLED, s.seqNo, taker.(status := STATUS_CANCELLED));
    OrderEmittable(EVT_FILLED, s.seqNo, taker);
  }

  lemma {:induction false} MatchEmittable(s: State, o: OrderRec)
    ensures AllEmittable(MatchAndSettle(s, o).events)
  {
    var r := Sweep(o, o.remaining, s.book.On(o.side.Opposite()));
    var taker := AfterMatch(o, r.remaining);
    TradesEmittable(s.seqNo, s.tradeSeq, taker, r.fills);
    SettleEmittable(State(s.book.With(o.side.Opposite(), r.book), s.seqNo, s.tradeSeq + |r.fills|), taker);
  }

  lemma {:induction false} NewOrderEmittable(s: State, o: OrderRec)
    ensures AllEmittable(NewOrderStep(s, o).events)
  {
    RejectEmittable(s, o, "post-only order would immediately match");
    RejectEmittable(s, o, "insufficient liquidity for FOK");
    RejectEmittable(s, o, "unknown order type");
    RestEmittable(s, o);
    MatchEmittable(s, o);
  }

  lemma {:induction false} CancelEmittable(s: State, id: nat)
    ensures AllEmittable(CancelStep(s, id).events)
  {
    var out := CancelStep(s, id);
    match FindInBook(id, s.book)
    case None =>
      assert PushBare(EVT_REJECTED, s.seqNo, "cancel rejected: order not found").Event() == out.events[0];
    case Some(o) =>
      OrderEmittable(EVT_CANCELLED, s.seqNo, o.(status := STATUS_CANCELLED));
  }

  lemma {:induction false} HandledEmittable(s: State, c: CommandRec, out: Outcome)
    requires out == Handled(s, c)
    ensures AllEmittable(out.events)
  {
    match c
    case NewOrder(o, now) => NewOrderEmittable(s, Stamped(o, now));
    case CancelOrder(id, _) => CancelEmittable(s, id);
    case OtherCommand =>
  }

  /** Every event the engine emits is what one of the push operations writes. */
  lemma {:induction false} StepEmittable(s: State, c: CommandRec, out: Outcome)
    requires out == Step(s, c)
    ensures AllEmittable(out.events)
  {
    HandledEmittable(s.(seqNo := s.seqNo + 1), c, out);
  }
}
