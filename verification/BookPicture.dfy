/**
 A picture is everything the book holds, as one coherent value. The edits of the book are functions from pictures
 to pictures, and a matching run is followed on them.
 */
module BookPicture {
  import opened Types
  import opened FlatBook
  import opened PriceLevels
  import opened EngineSpec
  import opened BookStore
  import opened BookEdits

  /** The flat lists are kept along, so that nobody has to read them off the levels again. */
  datatype PictureData = Pic(l: Layout, st: Store, flat: Book)

  ghost predicate CoherentOn(side: Side, p: PictureData) {
    && Coherent(p.l, p.st) && Readable(p.l.Prices(side), p.l.Nodes(side), p.st)
    && p.flat.On(side) == FlatSide(p.l, p.st, side)
  }

  /** Coherent, seen from either side; the trigger keeps this out of proofs that do not ask for it. */
  ghost predicate Sound(p: PictureData) {
    forall side {:trigger CoherentOn(side, p)} :: CoherentOn(side, p)
  }

  lemma {:induction false} CoherentIsSound(l: Layout, st: Store)
    requires Coherent(l, st)
    ensures Sound(Pic(l, st, Book(FlatSide(l, st, Buy), FlatSide(l, st, Sell))))
  {
    forall side
      ensures CoherentOn(side, Pic(l, st, Book(FlatSide(l, st, Buy), FlatSide(l, st, Sell))))
    {
      CoherentReadable(l, st, side);
    }
  }

  type Picture = p: PictureData | Sound(p)
    ghost witness Pic(Layout([], map[], [], map[], map[]), Store(map[], map[], map[]), Book([], []))

  ghost function Pictured(l: Layout, st: Store): Picture
    requires Coherent(l, st)
  {
    CoherentIsSound(l, st);
    Pic(l, st, Book(FlatSide(l, st, Buy), FlatSide(l, st, Sell)))
  }

  lemma {:induction false} ReadOff(p: Picture, side: Side)
    ensures Coherent(p.l, p.st) && p.flat.On(side) == FlatSide(p.l, p.st, side)
  {
    assert CoherentOn(side, p);
  }

  // ----- Filling -----

  ghost function Filled(p: Picture, node: PriceNode, qty: int): Picture
    requires Fillable(p.st, node, qty)
  {
    assert CoherentOn(node.side, p);
    FillKeeps(p.l, p.st, node, qty);
    Pictured(p.l.(index := FillIndex(p.l.index, p.st, node, qty)), FillStore(p.st, node, qty))
  }

  /** What a fill changes in the picture, item by item. */
  ghost predicate FillShown(p: Picture, node: PriceNode, maker: Order, m: OrderRec, qty: int, p': Picture)
    requires node in p.st.queues && node in p.st.sums && p.st.queues[node] != []
  {
    && p'.st.sums == p.st.sums[node := p.st.sums[node] - qty]
    && if m.remaining == qty then
      && p'.l == p.l.(index := p.l.index - {m.id}) && p'.st.recs == p.st.recs - {maker}
      && p'.st.queues == p.st.queues[node := p.st.queues[node][1..]]
    else
      && p'.l == p.l && p'.st.recs == p.st.recs[maker := AfterFill(m, qty)] && p'.st.queues == p.st.queues
  }

  lemma FilledShown(p: Picture, node: PriceNode, qty: int)
    requires Fillable(p.st, node, qty)
    ensures
      var maker := p.st.queues[node][0];
      FillShown(p, node, maker, p.st.recs[maker], qty, Filled(p, node, qty))
  {
  }

  /** The level holds the best price of its side. */
  ghost predicate BestLevel(p: Picture, node: PriceNode) {
    && node in p.st.queues && node in p.st.sums
    && p.l.Prices(node.side) != [] && p.l.Prices(node.side)[0] == node.price
  }

  ghost predicate OthersNonEmpty(p: Picture, node: PriceNode) {
    forall n :: n in p.st.queues && n != node ==> p.st.queues[n] != []
  }

  lemma {:induction false} FrontFillable(p: Picture, node: PriceNode, rem: int)
    requires node in p.st.queues && p.st.queues[node] != [] && rem > 0
    ensures
      var maker := p.st.queues[node][0];
      && maker in p.st.recs && p.st.recs[maker].remaining > 0 && p.st.recs[maker].price == node.price
      && Fillable(p.st, node, Min(rem, p.st.recs[maker].remaining))
  {
    assert CoherentOn(node.side, p);
    assert LevelOk(node, p.st.queues[node], p.st.sums[node], p.st.recs);
    BelongsTo(p.st, node, p.st.queues[node][0]);
  }

  // ----- A sweep under way -----

  /** The fills so far, followed by a sweep of what is left. */
  ghost function Resume(t: OrderRec, fills: seq<Fill>, rem: int, left: seq<OrderRec>): Swept {
    var next := Sweep(t, rem, left);
    Swept(fills + next.fills, next.book, next.remaining)
  }

  lemma {:induction false} ResumeOnce(t: OrderRec, fills: seq<Fill>, rem: int, left: seq<OrderRec>)
    requires rem > 0 && left != [] && Reaches(t, left[0].price)
    ensures
      var qty := Min(rem, left[0].remaining);
      Resume(t, fills + [Fill(AfterFill(left[0], qty), qty)], rem - qty, AfterFront(left, qty)) ==
      Resume(t, fills, rem, left)
  {
    var qty := Min(rem, left[0].remaining);
    var fill := Fill(AfterFill(left[0], qty), qty);
    assert fill.maker.remaining == 0 ==> AfterFront(left, qty) == left[1..];
    var next := Sweep(t, rem - qty, AfterFront(left, qty));
    assert fills + ([fill] + next.fills) == fills + [fill] + next.fills;
  }

  lemma {:induction false} ResumeStart(t: OrderRec, rem: int, left: seq<OrderRec>)
    ensures Resume(t, [], rem, left) == Sweep(t, rem, left)
  {
    assert [] + Sweep(t, rem, left).fills == Sweep(t, rem, left).fills;
  }

  lemma {:induction false} ResumeDone(t: OrderRec, fills: seq<Fill>, rem: int, left: seq<OrderRec>)
    requires rem <= 0 || left == [] || !Reaches(t, left[0].price)
    ensures Resume(t, fills, rem, left) == Swept(fills, left, rem)
  {
    assert fills + [] == fills;
  }

  lemma {:induction false} FilledFlat(p: Picture, node: PriceNode, qty: int)
    requires BestLevel(p, node) && Fillable(p.st, node, qty)
    ensures
      var flat := p.flat.On(node.side);
      && flat != [] && flat[0] == p.st.recs[p.st.queues[node][0]]
      && Filled(p, node, qty).flat.On(node.side) == AfterFront(flat, qty)
    ensures Filled(p, node, qty).flat.On(node.side.Opposite()) == p.flat.On(node.side.Opposite())
  {
    ReadOff(p, node.side);
    ReadOff(p, node.side.Opposite());
    FillKeeps(p.l, p.st, node, qty);
    FillFlat(p.l, p.st, node, qty);
  }

  lemma FilledBest(p: Picture, node: PriceNode, qty: int)
    requires BestLevel(p, node) && OthersNonEmpty(p, node) && Fillable(p.st, node, qty)
    ensures BestLevel(Filled(p, node, qty), node) && OthersNonEmpty(Filled(p, node, qty), node)
  {
  }

  /** How far a sweep of `node`'s side has come; `all` is the whole sweep. */
  ghost predicate Sweeping(p: Picture, node: PriceNode, rem: int, t: OrderRec, fills: seq<Fill>, all: Swept,
                           other: seq<OrderRec>)
  {
    && BestLevel(p, node) && OthersNonEmpty(p, node)
    && Resume(t, fills, rem, p.flat.On(node.side)) == all
    && p.flat.On(node.side.Opposite()) == other
  }

  lemma {:induction false} FilledSweeping(p: Picture, node: PriceNode, qty: int, rem: int, m: OrderRec,
                                          t: OrderRec, fills: seq<Fill>, all: Swept, other: seq<OrderRec>,
                                          p': Picture, rem': int, fill: Fill)
    requires Sweeping(p, node, rem, t, fills, all, other) && rem > 0 && Reaches(t, node.price)
    requires Fillable(p.st, node, qty) && m == p.st.recs[p.st.queues[node][0]] && qty == Min(rem, m.remaining)
    requires m.price == node.price
    requires p' == Filled(p, node, qty) && rem' == rem - qty && fill == Fill(AfterFill(m, qty), qty)
    ensures Sweeping(p', node, rem', t, fills + [fill], all, other)
    ensures p'.st.queues.Keys == p.st.queues.Keys
    ensures p'.st.recs.Keys == p.st.recs.Keys - if fill.maker.remaining == 0 then {p.st.queues[node][0]} else {}
    ensures 0 <= rem' < rem && fill.maker.price == node.price && (fill.maker.remaining == 0 || rem' == 0)
  {
    FilledFlat(p, node, qty);
    FilledBest(p, node, qty);
    ResumeOnce(t, fills, rem, p.flat.On(node.side));
  }

  // ----- Closing a level -----

  ghost predicate Closable(p: Picture, node: PriceNode, k: nat) {
    && node in p.st.queues && p.st.queues[node] == []
    && k < |p.l.Prices(node.side)| && p.l.Prices(node.side)[k] == node.price
  }

  ghost function Closed(p: Picture, node: PriceNode, k: nat): Picture
    requires Closable(p, node, k)
  {
    assert CoherentOn(node.side, p);
    CloseKeeps(p.l, p.st, k, node);
    Pictured(CloseLayout(p.l, node.side, k), CloseStore(p.st, node))
  }

  lemma {:induction false} ClosedFlat(p: Picture, node: PriceNode, k: nat)
    requires Closable(p, node, k)
    ensures Closed(p, node, k).flat == p.flat
  {
    ReadOff(p, Buy);
    ReadOff(p, Sell);
    CloseKeeps(p.l, p.st, k, node);
    CloseFlat(p.l, p.st, k, node, Buy);
    CloseFlat(p.l, p.st, k, node, Sell);
  }

  /** The cached quantity is zero exactly for an empty queue: the test by which the program drops a level. */
  lemma {:induction false} ZeroIffEmpty(p: Picture, node: PriceNode)
    requires node in p.st.queues
    ensures node in p.st.sums && (p.st.sums[node] == 0 <==> p.st.queues[node] == [])
  {
    assert CoherentOn(node.side, p);
    var q := p.st.queues[node];
    assert LevelOk(node, q, p.st.sums[node], p.st.recs);
    LevelRecsIndex(q, p.st.recs);
    SumNonNegative(LevelRecs(q, p.st.recs));
  }

  lemma {:induction false} BestNode(p: Picture, side: Side)
    requires p.l.Prices(side) != []
    ensures
      var price := p.l.Prices(side)[0];
      && price in p.l.Nodes(side)
      && var node := p.l.Nodes(side)[price];
         node.side == side && node.price == price && BestLevel(p, node)
  {
    var price := p.l.Prices(side)[0];
    assert CoherentOn(side, p);
    assert price in p.l.Prices(side);
    assert NodeAt(side, price, p.l.Nodes(side)[price]);
  }

  /** The flat side is empty exactly when there are no prices, and starts with the best price. */
  lemma {:induction false} BestOfSide(p: Picture, side: Side)
    requires NoneEmpty(p.st)
    ensures p.flat.On(side) == [] <==> p.l.Prices(side) == []
    ensures p.l.Prices(side) != [] ==> p.flat.On(side)[0].price == p.l.Prices(side)[0]
  {
    assert CoherentOn(side, p);
    NonEmptyFiled(side, p.l.Prices(side), p.l.Nodes(side), p.st);
    FlatHead(p.l.Prices(side), ViewOf(p.l.Nodes(side), p.st));
  }

  // ----- Between levels -----

  ghost predicate SweepingSide(p: Picture, side: Side, rem: int, t: OrderRec, fills: seq<Fill>, all: Swept,
                               other: seq<OrderRec>)
  {
    && Resume(t, fills, rem, p.flat.On(side)) == all
    && p.flat.On(side.Opposite()) == other
  }

  lemma EnterLevel(p: Picture, side: Side, node: PriceNode, rem: int,
                   t: OrderRec, fills: seq<Fill>, all: Swept, other: seq<OrderRec>)
    requires NoneEmpty(p.st) && BestLevel(p, node) && node.side == side
    requires SweepingSide(p, side, rem, t, fills, all, other)
    ensures Sweeping(p, node, rem, t, fills, all, other)
  {
  }

  lemma StayInLevel(p: Picture, side: Side, node: PriceNode, rem: int,
                    t: OrderRec, fills: seq<Fill>, all: Swept, other: seq<OrderRec>)
    requires Sweeping(p, node, rem, t, fills, all, other) && node.side == side && p.st.queues[node] != []
    ensures NoneEmpty(p.st) && SweepingSide(p, side, rem, t, fills, all, other)
  {
  }

  lemma {:induction false} LeaveEmptied(p: Picture, side: Side, node: PriceNode, rem: int,
                                        t: OrderRec, fills: seq<Fill>, all: Swept, other: seq<OrderRec>)
    requires Sweeping(p, node, rem, t, fills, all, other) && node.side == side && p.st.queues[node] == []
    ensures Closable(p, node, 0) && NoneEmpty(Closed(p, node, 0).st)
    ensures SweepingSide(Closed(p, node, 0), side, rem, t, fills, all, other)
  {
    ClosedFlat(p, node, 0);
  }

  /** The matching loop is over: nothing is left to fill, or nothing the taker reaches. */
  lemma {:induction false} SweepOver(p: Picture, side: Side, rem: int, t: OrderRec, fills: seq<Fill>,
                                     all: Swept, other: seq<OrderRec>)
    requires NoneEmpty(p.st) && SweepingSide(p, side, rem, t, fills, all, other)
    requires rem <= 0 || p.l.Prices(side) == [] || !Reaches(t, p.l.Prices(side)[0])
    ensures all == Swept(fills, p.flat.On(side), rem)
  {
    BestOfSide(p, side);
    ResumeDone(t, fills, rem, p.flat.On(side));
  }

  // ----- Joining -----

  ghost predicate Openable(p: Picture, node: PriceNode, k: nat) {
    && node !in p.st.queues && node.price !in p.l.Nodes(node.side)
    && Splits(node.side, p.l.Prices(node.side), k, node.price)
  }

  ghost function Opened(p: Picture, node: PriceNode, k: nat): Picture
    requires Openable(p, node, k)
  {
    assert CoherentOn(node.side, p);
    OpenKeeps(p.l, p.st, k, node);
    Pictured(OpenLayout(p.l, k, node), OpenStore(p.st, node))
  }

  ghost predicate Joinable(p: Picture, node: PriceNode, o: Order, r: OrderRec) {
    && node in p.st.queues && o !in p.st.recs && r.id !in p.l.index
    && r.remaining > 0 && r.price == node.price && r.side == node.side
  }

  ghost function Joined(p: Picture, node: PriceNode, o: Order, r: OrderRec): Picture
    requires Joinable(p, node, o, r)
  {
    assert CoherentOn(node.side, p);
    PushKeeps(p.l, p.st, node, o, r);
    Pictured(p.l.(index := p.l.index[r.id := OrderLoc(node, o)]), PushStore(p.st, node, o, r))
  }

  lemma OpenedKeys(p: Picture, node: PriceNode, k: nat)
    requires NoneEmpty(p.st) && Openable(p, node, k)
    ensures OthersNonEmpty(Opened(p, node, k), node)
    ensures Opened(p, node, k).st.recs == p.st.recs
    ensures Opened(p, node, k).st.queues.Keys == p.st.queues.Keys + {node}
  {
  }

  lemma JoinedKeys(p: Picture, node: PriceNode, o: Order, r: OrderRec)
    requires OthersNonEmpty(p, node) && Joinable(p, node, o, r)
    ensures NoneEmpty(Joined(p, node, o, r).st)
    ensures Joined(p, node, o, r).st.recs.Keys == p.st.recs.Keys + {o}
    ensures Joined(p, node, o, r).st.queues.Keys == p.st.queues.Keys
  {
  }

  /** Joining an existing level is stable insertion in the flat list. */
  lemma {:induction false} JoinedFlat(p: Picture, node: PriceNode, o: Order, r: OrderRec, p': Picture)
    requires NoneEmpty(p.st) && Joinable(p, node, o, r) && p' == Joined(p, node, o, r)
    ensures NoneEmpty(p'.st) && p'.st.recs.Keys == p.st.recs.Keys + {o} && p'.st.queues.Keys == p.st.queues.Keys
    ensures p'.flat.On(node.side.Opposite()) == p.flat.On(node.side.Opposite())
    ensures p'.flat.On(node.side) == Insert(r, p.flat.On(node.side))
  {
    ReadOff(p, node.side);
    ReadOff(p, node.side.Opposite());
    JoinedKeys(p, node, o, r);
    PushKeeps(p.l, p.st, node, o, r);
    PushFlat(p.l, p.st, node, o, r);
  }

  /** So is opening a level for the order. */
  lemma {:induction false} OpenedSides(p: Picture, node: PriceNode, k: nat, o: Order, r: OrderRec)
    requires NoneEmpty(p.st) && Openable(p, node, k) && Joinable(Opened(p, node, k), node, o, r)
    ensures Joined(Opened(p, node, k), node, o, r).flat.On(node.side.Opposite()) == p.flat.On(node.side.Opposite())
    ensures Joined(Opened(p, node, k), node, o, r).flat.On(node.side) == Insert(r, p.flat.On(node.side))
  {
    ReadOff(p, node.side);
    ReadOff(p, node.side.Opposite());
    OpenKeeps(p.l, p.st, k, node);
    PushKeeps(OpenLayout(p.l, k, node), OpenStore(p.st, node), node, o, r);
    OpenFlat(p.l, p.st, k, node, o, r);
    OpenFlatOther(p.l, p.st, k, node, o, r);
  }

  lemma {:induction false} OpenedFlat(p: Picture, node: PriceNode, k: nat, o: Order, r: OrderRec, p': Picture)
    requires NoneEmpty(p.st) && Openable(p, node, k) && Joinable(Opened(p, node, k), node, o, r)
    requires p' == Joined(Opened(p, node, k), node, o, r)
    ensures NoneEmpty(p'.st) && p'.st.recs.Keys == p.st.recs.Keys + {o}
    ensures p'.st.queues.Keys == p.st.queues.Keys + {node}
    ensures p'.flat.On(node.side.Opposite()) == p.flat.On(node.side.Opposite())
    ensures p'.flat.On(node.side) == Insert(r, p.flat.On(node.side))
  {
    OpenedSides(p, node, k, o, r);
    OpenedKeys(p, node, k);
    JoinedKeys(Opened(p, node, k), node, o, r);
  }

  // ----- Leaving -----

  ghost function Removed(p: Picture, node: PriceNode, o: Order): Picture
    requires QueuedIn(p.st, node, o)
  {
    assert CoherentOn(node.side, p);
    RemoveKeeps(p.l, p.st, node, o);
    Pictured(p.l.(index := p.l.index - {p.st.recs[o].id}), RemoveStore(p.st, node, o))
  }

  lemma {:induction false} RemovedFlat(p: Picture, node: PriceNode, o: Order)
    requires QueuedIn(p.st, node, o)
    ensures Removed(p, node, o).flat == DeleteFromBook(p.st.recs[o].id, p.flat)
  {
    ReadOff(p, node.side);
    ReadOff(p, node.side.Opposite());
    RemoveKeeps(p.l, p.st, node, o);
    RemoveFlat(p.l, p.st, node, o);
  }

  /** The cancel index answers exactly like a search of the two flat lists. */
  lemma {:induction false} LookupIsFind(p: Picture, id: nat)
    ensures id !in p.l.index ==> FindInBook(id, p.flat) == None
    ensures id in p.l.index ==>
              var o := p.l.index[id].element;
              && QueuedIn(p.st, p.l.index[id].node, o)
              && p.st.recs[o].id == id && p.st.recs[o].side == p.l.index[id].node.side
              && FindInBook(id, p.flat) == Some(p.st.recs[o])
  {
    ReadOff(p, Buy);
    ReadOff(p, Sell);
    IndexIsLookup(p.l, p.st, id);
    if id in p.l.index {
      LookupPresent(p.l, p.st, id);
    }
  }

  /** A level is listed at one position of its side's price list. */
  lemma {:induction false} LevelListed(p: Picture, node: PriceNode)
    requires node in p.st.queues
    ensures StrictlySorted(node.side, p.l.Prices(node.side)) && node.price in p.l.Prices(node.side)
    ensures node.price in p.l.Nodes(node.side) && p.l.Nodes(node.side)[node.price] == node
  {
    assert CoherentOn(node.side, p);
    FiledAt(p.l, p.st.queues.Keys, node);
  }

  lemma {:induction false} SideSorted(p: Picture, side: Side)
    ensures StrictlySorted(side, p.l.Prices(side))
    ensures forall x :: x in p.l.Prices(side) <==> x in p.l.Nodes(side)
    ensures Within(p.l.Nodes(side), p.st.queues.Keys)
  {
    assert CoherentOn(side, p);
  }

  lemma {:induction false} FoundLevel(p: Picture, side: Side, price: int)
    requires price in p.l.Nodes(side)
    ensures
      var node := p.l.Nodes(side)[price];
      node in p.st.queues && node.side == side && node.price == price
  {
    assert CoherentOn(side, p);
    assert NodeAt(side, price, p.l.Nodes(side)[price]);
  }

  lemma {:induction false} RemovedKeys(p: Picture, node: PriceNode, o: Order, p': Picture)
    requires QueuedIn(p.st, node, o) && p' == Removed(p, node, o)
    ensures p'.flat == DeleteFromBook(p.st.recs[o].id, p.flat)
    ensures p'.st.recs.Keys == p.st.recs.Keys - {o} && p'.st.queues.Keys == p.st.queues.Keys
    ensures NoneEmpty(p.st) ==> OthersNonEmpty(p', node)
  {
    RemovedFlat(p, node, o);
  }

  lemma {:induction false} ClosedKeys(p: Picture, node: PriceNode, k: nat, p': Picture)
    requires Closable(p, node, k) && p' == Closed(p, node, k)
    ensures p'.flat == p.flat
    ensures p'.st.recs.Keys == p.st.recs.Keys && p'.st.queues.Keys == p.st.queues.Keys - {node}
    ensures OthersNonEmpty(p, node) ==> NoneEmpty(p'.st)
  {
    ClosedFlat(p, node, k);
  }

  // ----- Reading -----

  /** What a snapshot says about the `i`-th best level of a side. */
  ghost function LevelAt(p: Picture, side: Side, i: nat): PriceLevel
    requires i < |p.l.Prices(side)|
  {
    assert CoherentOn(side, p);
    assert p.l.Prices(side)[i] in p.l.Prices(side);
    var node := p.l.Nodes(side)[p.l.Prices(side)[i]];
    PriceLevel(p.l.Prices(side)[i], p.st.sums[node], |p.st.queues[node]|)
  }

  lemma {:induction false} LevelReads(p: Picture, side: Side, i: nat)
    requires i < |p.l.Prices(side)|
    ensures
      var price := p.l.Prices(side)[i];
      && price in p.l.Nodes(side) && p.l.Nodes(side)[price] in p.st.queues && p.l.Nodes(side)[price] in p.st.sums
      && Readable(p.l.Prices(side), p.l.Nodes(side), p.st)
      && var q := ViewOf(p.l.Nodes(side), p.st)[price];
         LevelAt(p, side, i) == PriceLevel(price, Sum(q), |q|)
  {
    assert CoherentOn(side, p);
    var price := p.l.Prices(side)[i];
    assert price in p.l.Prices(side);
    var node := p.l.Nodes(side)[price];
    assert node in p.st.queues;
    assert LevelOk(node, p.st.queues[node], p.st.sums[node], p.st.recs);
    LevelRecsIndex(p.st.queues[node], p.st.recs);
  }

  /** Reading the levels best first gives the flat list aggregated by price. */
  lemma {:induction false} AggregateOf(p: Picture, side: Side, levels: nat)
    requires NoneEmpty(p.st)
    ensures |Aggregate(p.flat.On(side), levels)| == Min(levels, |p.l.Prices(side)|)
    ensures forall i :: 0 <= i < |Aggregate(p.flat.On(side), levels)| ==>
              Aggregate(p.flat.On(side), levels)[i] == LevelAt(p, side, i)
  {
    assert CoherentOn(side, p);
    NonEmptyFiled(side, p.l.Prices(side), p.l.Nodes(side), p.st);
    AggregateIsLevels(side, p.l.Prices(side), ViewOf(p.l.Nodes(side), p.st), levels);
    forall i | 0 <= i < |Aggregate(p.flat.On(side), levels)|
      ensures Aggregate(p.flat.On(side), levels)[i] == LevelAt(p, side, i)
    {
      LevelReads(p, side, i);
    }
  }

  /** Every level of a snapshot offers something. */
  lemma {:induction false} AggregatePositive(p: Picture, side: Side, levels: nat)
    requires NoneEmpty(p.st)
    ensures
      var ls := Aggregate(p.flat.On(side), levels);
      forall i :: 0 <= i < |ls| ==> ls[i].quantity > 0
  {
    AggregateOf(p, side, levels);
    forall i | 0 <= i < |p.l.Prices(side)|
      ensures LevelAt(p, side, i).quantity > 0
    {
      LevelReads(p, side, i);
      var node := p.l.Nodes(side)[p.l.Prices(side)[i]];
      assert CoherentOn(side, p);
      ZeroIffEmpty(p, node);
      LevelSumNonNegative(p, node);
    }
  }

  lemma {:induction false} LevelSumNonNegative(p: Picture, node: PriceNode)
    requires node in p.st.queues
    ensures node in p.st.sums && p.st.sums[node] >= 0
  {
    var q := p.st.queues[node];
    assert CoherentOn(node.side, p);
    assert LevelOk(node, q, p.st.sums[node], p.st.recs);
    SumNonNegative(LevelRecs(q, p.st.recs));
  }

  // ----- What soundness says, spelled out -----

  /** An order queued at a level: live, of the level's price and side, and indexed there under its own id. */
  ghost predicate ProperlyQueued(p: Picture, node: PriceNode, o: Order) {
    && o in p.st.recs
    && var r := p.st.recs[o];
       && r.remaining > 0 && r.price == node.price && r.side == node.side
       && r.id in p.l.index && p.l.index[r.id] == OrderLoc(node, o)
  }

  /**
   The representation invariant in full: price lists strictly sorted and equal to the map keys; no empty level; every
   level's cached quantity is the sum over its queue; every queued order is live, in place and indexed; every index
   entry points at a queued order with its id; and no level is filed anywhere but under its own price and side.
   */
  lemma {:induction false} RepresentationInvariant(p: Picture)
    requires NoneEmpty(p.st)
    ensures forall side :: StrictlySorted(side, p.l.Prices(side))
    ensures forall side, x :: x in p.l.Prices(side) <==> x in p.l.Nodes(side)
    ensures forall side, x :: x in p.l.Nodes(side) ==>
              var n := p.l.Nodes(side)[x];
              n in p.st.queues && n.price == x && n.side == side && p.st.queues[n] != []
    ensures forall n :: n in p.st.queues ==> n.price in p.l.Nodes(n.side) && p.l.Nodes(n.side)[n.price] == n
    ensures forall n :: n in p.st.queues ==>
              && n in p.st.sums && Known(p.st.queues[n], p.st.recs)
              && p.st.sums[n] == Sum(LevelRecs(p.st.queues[n], p.st.recs))
    ensures forall n, o :: n in p.st.queues && o in p.st.queues[n] ==> ProperlyQueued(p, n, o)
    ensures forall id :: id in p.l.index ==>
              var loc := p.l.index[id];
              && loc.node in p.st.queues && loc.element in p.st.queues[loc.node]
              && ProperlyQueued(p, loc.node, loc.element) && p.st.recs[loc.element].id == id
  {
    forall side
      ensures StrictlySorted(side, p.l.Prices(side)) && forall x :: x in p.l.Prices(side) <==> x in p.l.Nodes(side)
    {
      SideSorted(p, side);
    }
    forall side, x | x in p.l.Nodes(side)
      ensures
        var n := p.l.Nodes(side)[x];
        n in p.st.queues && n.price == x && n.side == side && p.st.queues[n] != []
    {
      FoundLevel(p, side, x);
    }
    forall n | n in p.st.queues
      ensures n.price in p.l.Nodes(n.side) && p.l.Nodes(n.side)[n.price] == n
      ensures n in p.st.sums && Known(p.st.queues[n], p.st.recs)
      ensures p.st.sums[n] == Sum(LevelRecs(p.st.queues[n], p.st.recs))
    {
      LevelListed(p, n);
      LevelSummed(p, n);
    }
    forall n, o | n in p.st.queues && o in p.st.queues[n]
      ensures ProperlyQueued(p, n, o)
    {
      QueuedProperly(p, n, o);
    }
    forall id | id in p.l.index
      ensures
        var loc := p.l.index[id];
        loc.node in p.st.queues && loc.element in p.st.queues[loc.node] && ProperlyQueued(p, loc.node, loc.element)
        && p.st.recs[loc.element].id == id
    {
      LookupIsFind(p, id);
      QueuedProperly(p, p.l.index[id].node, p.l.index[id].element);
    }
  }

  lemma {:induction false} LevelSummed(p: Picture, n: PriceNode)
    requires n in p.st.queues
    ensures n in p.st.sums && Known(p.st.queues[n], p.st.recs)
    ensures p.st.sums[n] == Sum(LevelRecs(p.st.queues[n], p.st.recs))
  {
    assert CoherentOn(n.side, p);
    assert LevelOk(n, p.st.queues[n], p.st.sums[n], p.st.recs);
  }

  lemma {:induction false} QueuedProperly(p: Picture, n: PriceNode, o: Order)
    requires n in p.st.queues && o in p.st.queues[n]
    ensures ProperlyQueued(p, n, o)
  {
    assert CoherentOn(n.side, p);
    assert Indexed(p.l.index, n, p.st.queues[n], p.st.recs);
    LevelSummed(p, n);
    BelongsTo(p.st, n, o);
  }
}
