/**
 One side of the book as a flat list in price-time order, and the three things that can happen to it:
 a taker sweeps it from the front, an order joins it, an order leaves it by id.
 */
module FlatBook {
  import opened Types

  /** Ranks prices so that the best price of either side has the smallest key. */
  function Key(side: Side, price: int): int {
    if side.Buy? then -price else price
  }

  ghost predicate Sorted(side: Side, b: seq<OrderRec>) {
    forall i, j :: 0 <= i < j < |b| ==> Key(side, b[i].price) <= Key(side, b[j].price)
  }

  ghost predicate Live(b: seq<OrderRec>) {
    forall i :: 0 <= i < |b| ==> b[i].remaining > 0
  }

  function Ids(b: seq<OrderRec>): set<nat> {
    if b == [] then {} else {b[0].id} + Ids(b[1..])
  }

  ghost predicate DistinctIds(b: seq<OrderRec>) {
    b != [] ==> b[0].id !in Ids(b[1..]) && DistinctIds(b[1..])
  }

  // ----- Sweeping -----

  datatype Swept = Swept(fills: seq<Fill>, book: seq<OrderRec>, remaining: int)

  /** The taker's own limit: no worse than its price. */
  predicate WithinLimit(t: OrderRec, price: int) {
    if t.side.Buy? then price <= t.price else price >= t.price
  }

  /** What the matching loop checks before it enters a level: only LIMIT takers are price-bounded. */
  predicate Reaches(t: OrderRec, price: int) {
    t.typ == LIMIT ==> WithinLimit(t, price)
  }

  function AfterFill(maker: OrderRec, qty: int): OrderRec {
    maker.(remaining := maker.remaining - qty,
           status := if maker.remaining == qty then STATUS_FILLED else STATUS_PARTIALLY_FILLED)
  }

  /** Greedy consumption of the front of `b` by a taker `t` with `rem` still to fill. */
  function Sweep(t: OrderRec, rem: int, b: seq<OrderRec>): Swept
    decreases |b|
  {
    if rem <= 0 || b == [] || !Reaches(t, b[0].price) then
      Swept([], b, rem)
    else
      var qty := Min(rem, b[0].remaining);
      var maker := AfterFill(b[0], qty);
      if maker.remaining == 0 then
        var rest := Sweep(t, rem - qty, b[1..]);
        Swept([Fill(maker, qty)] + rest.fills, rest.book, rest.remaining)
      else
        Swept([Fill(maker, qty)], [maker] + b[1..], rem - qty)
  }

  function FilledQty(fills: seq<Fill>): int {
    if fills == [] then 0 else fills[0].qty + FilledQty(fills[1..])
  }

  /** The maker a sweep leaves partly filled at the front, if there is one. */
  function Leftover(fills: seq<Fill>): seq<OrderRec> {
    if fills != [] && fills[|fills| - 1].maker.remaining > 0 then [fills[|fills| - 1].maker] else []
  }

  /**
   The sweep, pinned down without recursion: makers are taken strictly in list order, each at most once,
   all but the last completely, for positive quantities that add up to what the taker lost; the list keeps
   exactly the rest; and the taker stops only when it is filled or nothing it reaches is left.
   */
  ghost predicate Greedy(t: OrderRec, rem: int, b: seq<OrderRec>, r: Swept) {
    var n := |r.fills|;
    && n <= |b|
    && (forall i :: 0 <= i < n ==>
          && Reaches(t, b[i].price)
          && 0 < r.fills[i].qty <= b[i].remaining
          && r.fills[i].maker == AfterFill(b[i], r.fills[i].qty))
    && (forall i :: 0 <= i < n - 1 ==> r.fills[i].qty == b[i].remaining)
    && r.book == Leftover(r.fills) + b[n..]
    && 0 <= r.remaining == rem - FilledQty(r.fills)
    && (r.remaining > 0 ==> r.book == b[n..] && (r.book == [] || !Reaches(t, r.book[0].price)))
  }

  lemma {:induction false} SweepFillAt(t: OrderRec, rem: int, b: seq<OrderRec>, i: nat)
    requires rem >= 0 && Live(b) && i < |Sweep(t, rem, b).fills|
    ensures
      var r := Sweep(t, rem, b);
      && i < |b|
      && Reaches(t, b[i].price)
      && 0 < r.fills[i].qty <= b[i].remaining
      && r.fills[i].maker == AfterFill(b[i], r.fills[i].qty)
      && (i < |r.fills| - 1 ==> r.fills[i].qty == b[i].remaining)
  {
    if i > 0 {
      SweepFillAt(t, rem - b[0].remaining, b[1..], i - 1);
    }
  }

  lemma {:induction false} SweepBook(t: OrderRec, rem: int, b: seq<OrderRec>)
    requires rem >= 0 && Live(b)
    ensures
      var r := Sweep(t, rem, b);
      |r.fills| <= |b| && r.remaining >= 0 && r.book == Leftover(r.fills) + b[|r.fills|..]
  {
    var r := Sweep(t, rem, b);
    if r.fills == [] {
    } else if rem < b[0].remaining {
      assert Leftover(r.fills) == [r.fills[0].maker];
    } else {
      var rest := Sweep(t, rem - b[0].remaining, b[1..]);
      SweepBook(t, rem - b[0].remaining, b[1..]);
      LeftoverCons(r.fills[0], rest.fills);
      assert b[1..][|rest.fills|..] == b[|r.fills|..];
    }
  }

  lemma LeftoverCons(f: Fill, fills: seq<Fill>)
    requires f.maker.remaining == 0
    ensures Leftover([f] + fills) == Leftover(fills)
  {
  }

  lemma {:induction false} SweepStops(t: OrderRec, rem: int, b: seq<OrderRec>)
    requires Live(b) && Sweep(t, rem, b).remaining > 0
    ensures
      var r := Sweep(t, rem, b);
      && |r.fills| <= |b|
      && r.book == b[|r.fills|..]
      && (r.book == [] || !Reaches(t, r.book[0].price))
  {
    var r := Sweep(t, rem, b);
    if r.fills != [] {
      SweepStops(t, rem - b[0].remaining, b[1..]);
      assert b[1..][|r.fills| - 1..] == b[|r.fills|..];
    }
  }

  lemma {:induction false} SweepFilledQty(t: OrderRec, rem: int, b: seq<OrderRec>)
    requires Live(b)
    ensures Sweep(t, rem, b).remaining == rem - FilledQty(Sweep(t, rem, b).fills)
    ensures Sum(b) == Sum(Sweep(t, rem, b).book) + FilledQty(Sweep(t, rem, b).fills)
  {
    var r := Sweep(t, rem, b);
    if r.fills == [] {
    } else if rem < b[0].remaining {
      assert r.fills[1..] == [] && r.book[1..] == b[1..];
    } else {
      SweepFilledQty(t, rem - b[0].remaining, b[1..]);
      assert r.fills[1..] == Sweep(t, rem - b[0].remaining, b[1..]).fills;
    }
  }

  lemma {:induction false} SweepIsGreedy(t: OrderRec, rem: int, b: seq<OrderRec>)
    requires rem >= 0 && Live(b)
    ensures Greedy(t, rem, b, Sweep(t, rem, b))
  {
    SweepBook(t, rem, b);
    SweepFilledQty(t, rem, b);
    if Sweep(t, rem, b).remaining > 0 {
      SweepStops(t, rem, b);
    }
    forall i | 0 <= i < |Sweep(t, rem, b).fills| {
      SweepFillAt(t, rem, b, i);
    }
  }

  lemma {:induction false} GreedyNone(t: OrderRec, rem: int, b: seq<OrderRec>, r: Swept)
    requires rem >= 0 && Greedy(t, rem, b, r) && r.fills == []
    ensures r == Sweep(t, rem, b)
  {
    assert b[0..] == b;
  }

  lemma SweepTakesFirst(t: OrderRec, rem: int, b: seq<OrderRec>, first: Fill, rest: Swept)
    requires rem > 0 && b != [] && Reaches(t, b[0].price) && b[0].remaining <= rem
    requires first == Fill(AfterFill(b[0], b[0].remaining), b[0].remaining)
    requires rest == Sweep(t, rem - b[0].remaining, b[1..])
    ensures Sweep(t, rem, b) == Swept([first] + rest.fills, rest.book, rest.remaining)
  {
  }

  /** Conversely nothing else is greedy, so the predicate above and the recursive sweep say the same thing. */
  lemma {:induction false} GreedyIsSweep(t: OrderRec, rem: int, b: seq<OrderRec>, r: Swept)
    requires rem >= 0 && Live(b)
    requires Greedy(t, rem, b, r)
    ensures r == Sweep(t, rem, b)
  {
    if r.fills == [] {
      GreedyNone(t, rem, b, r);
    } else {
      GreedyFirst(t, rem, b, r);
      if r.fills[0].qty == b[0].remaining {
        var rest := r.(fills := r.fills[1..]);
        GreedyTail(t, rem, b, r);
        GreedyIsSweep(t, rem - b[0].remaining, b[1..], rest);
        SweepTakesFirst(t, rem, b, r.fills[0], rest);
      } else {
        SweepTakesPart(t, rem, b, r);
      }
    }
  }

  lemma SweepTakesPart(t: OrderRec, rem: int, b: seq<OrderRec>, r: Swept)
    requires b != [] && Reaches(t, b[0].price) && 0 < rem < b[0].remaining
    requires r == Swept([Fill(AfterFill(b[0], rem), rem)], [AfterFill(b[0], rem)] + b[1..], 0)
    ensures r == Sweep(t, rem, b)
  {
  }

  lemma {:induction false} GreedyFirst(t: OrderRec, rem: int, b: seq<OrderRec>, r: Swept)
    requires Live(b) && Greedy(t, rem, b, r) && r.fills != []
    ensures Reaches(t, b[0].price) && r.fills[0].qty == Min(rem, b[0].remaining)
    ensures r.fills[0].maker == AfterFill(b[0], r.fills[0].qty) && r.fills[0].qty > 0
    ensures r.fills == [r.fills[0]] + r.fills[1..]
    ensures r.fills[0].qty < b[0].remaining ==>
              r.fills == [r.fills[0]] && r.remaining == 0 && r.book == [r.fills[0].maker] + b[1..]
  {
    assert r.fills == [r.fills[0]] + r.fills[1..];
    FilledQtyNonNegative(r.fills[1..]);
  }

  lemma {:induction false} GreedyTail(t: OrderRec, rem: int, b: seq<OrderRec>, r: Swept)
    requires Live(b) && Greedy(t, rem, b, r) && r.fills != [] && r.fills[0].qty == b[0].remaining
    ensures Greedy(t, rem - b[0].remaining, b[1..], r.(fills := r.fills[1..]))
  {
    var rest := r.(fills := r.fills[1..]);
    assert b[1..][|rest.fills|..] == b[|r.fills|..];
    assert Leftover(rest.fills) == Leftover(r.fills);
    forall i | 0 <= i < |rest.fills|
      ensures rest.fills[i] == r.fills[i + 1] && b[1..][i] == b[i + 1]
    {
    }
  }

  lemma {:induction false} FilledQtyNonNegative(fills: seq<Fill>)
    requires forall i :: 0 <= i < |fills| ==> fills[i].qty > 0
    ensures FilledQty(fills) >= |fills|
  {
    if fills != [] {
      FilledQtyNonNegative(fills[1..]);
    }
  }

  /** How many orders at the front of the list the taker reaches. */
  function ReachLen(t: OrderRec, b: seq<OrderRec>): (n: nat)
    ensures n <= |b|
  {
    if b == [] || !Reaches(t, b[0].price) then 0 else 1 + ReachLen(t, b[1..])
  }

  lemma {:induction false} ReachesAll(t: OrderRec, b: seq<OrderRec>)
    requires t.typ != LIMIT
    ensures ReachLen(t, b) == |b|
  {
    if b != [] {
      ReachesAll(t, b[1..]);
    }
  }

  /** The quantity traded is what the taker wants, capped by what it can reach. */
  lemma {:induction false} SweepQuantity(t: OrderRec, rem: int, b: seq<OrderRec>)
    requires rem >= 0 && Live(b)
    ensures FilledQty(Sweep(t, rem, b).fills) == Min(rem, Sum(b[..ReachLen(t, b)]))
  {
    var n := ReachLen(t, b);
    var r := Sweep(t, rem, b);
    SumNonNegative(b[..n]);
    if n > 0 && rem > 0 {
      assert b[..n][1..] == b[1..][..n - 1];
      SumNonNegative(b[1..][..n - 1]);
      if rem < b[0].remaining {
        assert r.fills[1..] == [];
      } else {
        SweepQuantity(t, rem - b[0].remaining, b[1..]);
        assert r.fills[1..] == Sweep(t, rem - b[0].remaining, b[1..]).fills;
      }
    }
  }

  // ----- Joining and leaving -----

  /** A new order goes behind every order whose price is at least as good. */
  function Insert(o: OrderRec, b: seq<OrderRec>): seq<OrderRec> {
    if b == [] || Key(o.side, o.price) < Key(o.side, b[0].price) then [o] + b
    else [b[0]] + Insert(o, b[1..])
  }

  function Delete(id: nat, b: seq<OrderRec>): seq<OrderRec> {
    if b == [] then []
    else if b[0].id == id then Delete(id, b[1..])
    else [b[0]] + Delete(id, b[1..])
  }

  /** The first order with the given id. */
  function Find(id: nat, b: seq<OrderRec>): Option<OrderRec> {
    if b == [] then None else if b[0].id == id then Some(b[0]) else Find(id, b[1..])
  }

  /** How many orders at the front are priced at least as well as `o`. */
  function Rank(o: OrderRec, b: seq<OrderRec>): (k: nat)
    ensures k <= |b|
  {
    if b == [] || Key(o.side, o.price) < Key(o.side, b[0].price) then 0 else 1 + Rank(o, b[1..])
  }

  lemma {:induction false} InsertAtRank(o: OrderRec, b: seq<OrderRec>)
    ensures Insert(o, b) == b[..Rank(o, b)] + [o] + b[Rank(o, b)..]
  {
    var k := Rank(o, b);
    if k > 0 {
      InsertAtRank(o, b[1..]);
      assert b[..k] == [b[0]] + b[1..][..k - 1];
      assert b[k..] == b[1..][k - 1..];
    }
  }

  lemma {:induction false} RankSplits(o: OrderRec, b: seq<OrderRec>)
    requires Sorted(o.side, b)
    ensures forall i :: 0 <= i < Rank(o, b) ==> Key(o.side, b[i].price) <= Key(o.side, o.price)
    ensures forall i :: Rank(o, b) <= i < |b| ==> Key(o.side, o.price) < Key(o.side, b[i].price)
  {
    if Rank(o, b) > 0 {
      var rest := b[1..];
      RankSplits(o, rest);
      forall i | 0 < i < |b|
        ensures b[i] == rest[i - 1]
      {
      }
    }
  }

  /**
   Insertion is stable: the newcomer stands behind everything priced at least as well and before everything
   priced worse, nothing else moves, and the list stays in price-time order.
   */
  lemma {:induction false} InsertIsStable(o: OrderRec, b: seq<OrderRec>)
    requires Sorted(o.side, b)
    ensures Insert(o, b) == b[..Rank(o, b)] + [o] + b[Rank(o, b)..]
    ensures forall i :: 0 <= i < Rank(o, b) ==> Key(o.side, b[i].price) <= Key(o.side, o.price)
    ensures forall i :: Rank(o, b) <= i < |b| ==> Key(o.side, o.price) < Key(o.side, b[i].price)
    ensures Sorted(o.side, Insert(o, b))
  {
    InsertAtRank(o, b);
    RankSplits(o, b);
  }

  /** Deletion removes every order with the id, keeps the rest in order, and does nothing to a list without it. */
  lemma {:induction false} DeleteAppend(id: nat, a: seq<OrderRec>, b: seq<OrderRec>)
    ensures Delete(id, a + b) == Delete(id, a) + Delete(id, b)
  {
    if a == [] {
      assert a + b == b;
    } else {
      assert (a + b)[1..] == a[1..] + b;
      DeleteAppend(id, a[1..], b);
      assert [a[0]] + (Delete(id, a[1..]) + Delete(id, b)) == [a[0]] + Delete(id, a[1..]) + Delete(id, b);
    }
  }

  lemma {:induction false} DeleteAbsent(id: nat, b: seq<OrderRec>)
    requires id !in Ids(b)
    ensures Delete(id, b) == b && Find(id, b) == None
  {
    if b != [] {
      DeleteAbsent(id, b[1..]);
    }
  }

  lemma {:induction false} IdAt(b: seq<OrderRec>, k: nat)
    requires k < |b|
    ensures b[k].id in Ids(b)
  {
    if k > 0 {
      IdAt(b[1..], k - 1);
    }
  }

  /** With distinct ids, deletion takes out exactly the one position that holds the id. */
  lemma {:induction false} DeleteAt(b: seq<OrderRec>, k: nat)
    requires k < |b| && DistinctIds(b)
    ensures Delete(b[k].id, b) == b[..k] + b[k + 1..] && Find(b[k].id, b) == Some(b[k])
  {
    if k == 0 {
      assert b[..0] + b[1..] == b[1..];
      DeleteAbsent(b[0].id, b[1..]);
    } else {
      assert b[k] == b[1..][k - 1];
      IdAt(b[1..], k - 1);
      DeleteAt(b[1..], k - 1);
      assert b[..k] + b[k + 1..] == [b[0]] + (b[1..][..k - 1] + b[1..][k..]);
    }
  }

  /** A lookup succeeds exactly on the ids present, and then finds an order that bears the id. */
  lemma {:induction false} FindIffPresent(id: nat, b: seq<OrderRec>)
    ensures Find(id, b).Some? <==> id in Ids(b)
    ensures Find(id, b).Some? ==> Find(id, b).value in b && Find(id, b).value.id == id
  {
    if b != [] {
      FindIffPresent(id, b[1..]);
    }
  }
}
