/**
 The objects of an order book and a picture of them as values. The book's methods edit objects; everything
 that has to be said about levels, queues and index together is said about the picture.
 */
module BookStore {
  import opened Types
  import opened FlatBook
  import opened PriceLevels

  class Order {
    var id: nat
    var user: nat
    var side: Side
    var typ: int
    var price: int
    var quantity: int
    var remaining: int
    var status: int
    var timestamp: int

    constructor (r: OrderRec)
      ensures Rec() == r
    {
      id, user, side, typ, price := r.id, r.user, r.side, r.typ, r.price;
      quantity, remaining, status, timestamp := r.quantity, r.remaining, r.status, r.timestamp;
    }

    function Rec(): OrderRec
      reads this
    {
      OrderRec(id, user, side, typ, price, quantity, remaining, status, timestamp)
    }
  }

  /** One price level. An order object stands for its own list element. */
  class PriceNode {
    ghost const side: Side
    const price: int
    var quantity: int
    var orders: seq<Order>

    constructor (ghost side: Side, price: int)
      ensures this.side == side && this.price == price && quantity == 0 && orders == []
    {
      this.side, this.price := side, price;
      quantity, orders := 0, [];
    }
  }

  datatype OrderLoc = OrderLoc(node: PriceNode, element: Order)

  /** The book's own fields: price lists, maps and cancel index. */
  datatype Layout = Layout(
    bidPrices: seq<int>, bids: map<int, PriceNode>,
    askPrices: seq<int>, asks: map<int, PriceNode>,
    index: map<nat, OrderLoc>)
  {
    function Prices(side: Side): seq<int> {
      if side.Buy? then bidPrices else askPrices
    }

    function Nodes(side: Side): map<int, PriceNode> {
      if side.Buy? then bids else asks
    }

    function With(side: Side, prices: seq<int>, nodes: map<int, PriceNode>): Layout {
      if side.Buy? then this.(bidPrices := prices, bids := nodes) else this.(askPrices := prices, asks := nodes)
    }
  }

  /** What the book's objects hold: per level its queue and cached quantity, per resting order its fields. */
  datatype Store = Store(queues: map<PriceNode, seq<Order>>, sums: map<PriceNode, int>, recs: map<Order, OrderRec>)

  ghost predicate Known(q: seq<Order>, recs: map<Order, OrderRec>) {
    forall i :: 0 <= i < |q| ==> q[i] in recs
  }

  /** The fields of the orders in a queue. */
  ghost function LevelRecs(q: seq<Order>, recs: map<Order, OrderRec>): seq<OrderRec>
    requires Known(q, recs)
  {
    if q == [] then [] else [recs[q[0]]] + LevelRecs(q[1..], recs)
  }

  lemma {:induction false} LevelRecsFrame(q: seq<Order>, recs: map<Order, OrderRec>, recs': map<Order, OrderRec>)
    requires Known(q, recs) && forall i :: 0 <= i < |q| ==> q[i] in recs' && recs'[q[i]] == recs[q[i]]
    ensures LevelRecs(q, recs') == LevelRecs(q, recs)
  {
    if q != [] {
      LevelRecsFrame(q[1..], recs, recs');
    }
  }

  lemma {:induction false} LevelRecsIndex(q: seq<Order>, recs: map<Order, OrderRec>)
    requires Known(q, recs)
    ensures |LevelRecs(q, recs)| == |q|
    ensures forall i :: 0 <= i < |q| ==> LevelRecs(q, recs)[i] == recs[q[i]]
  {
    if q != [] {
      LevelRecsIndex(q[1..], recs);
    }
  }

  lemma {:induction false} LevelRecsIds(q: seq<Order>, recs: map<Order, OrderRec>, o: Order)
    requires Known(q, recs) && o in q
    ensures recs[o].id in Ids(LevelRecs(q, recs))
  {
    if q[0] != o {
      LevelRecsIds(q[1..], recs, o);
    }
  }

  /** All orders of a queue are live and of the level's price and side. */
  ghost predicate Belong(side: Side, price: int, q: seq<OrderRec>) {
    forall i :: 0 <= i < |q| ==> q[i].remaining > 0 && q[i].price == price && q[i].side == side
  }

  /** A level in good order: its cached quantity is right, its orders belong there and have distinct ids. */
  ghost predicate LevelOk(n: PriceNode, q: seq<Order>, sum: int, recs: map<Order, OrderRec>) {
    && Known(q, recs)
    && sum == Sum(LevelRecs(q, recs))
    && DistinctIds(LevelRecs(q, recs))
    && Belong(n.side, n.price, LevelRecs(q, recs))
  }

  /** The price list is strictly sorted and lists exactly the levels, each filed under its own price. */
  ghost predicate Listed(side: Side, prices: seq<int>, nodes: map<int, PriceNode>) {
    && StrictlySorted(side, prices)
    && (forall p :: p in prices <==> p in nodes)
    && (forall p {:trigger NodeAt(side, p, nodes[p])} :: p in nodes ==> NodeAt(side, p, nodes[p]))
  }

  ghost predicate NodeAt(side: Side, p: int, n: PriceNode) {
    n.side == side && n.price == p
  }

  /** `ns` are exactly the levels filed in the two maps. */
  ghost predicate Files(ns: set<PriceNode>, bids: map<int, PriceNode>, asks: map<int, PriceNode>) {
    && Within(bids, ns)
    && Within(asks, ns)
    && (forall n {:trigger FiledIn(n, bids, asks)} :: n in ns ==> FiledIn(n, bids, asks))
  }

  ghost predicate Within(nodes: map<int, PriceNode>, ns: set<PriceNode>) {
    forall p :: p in nodes ==> nodes[p] in ns
  }

  ghost predicate FiledIn(n: PriceNode, bids: map<int, PriceNode>, asks: map<int, PriceNode>) {
    var nodes := if n.side.Buy? then bids else asks;
    n.price in nodes && nodes[n.price] == n
  }

  ghost predicate LevelsOk(st: Store) {
    st.sums.Keys == st.queues.Keys
    && forall n {:trigger LevelOk(n, st.queues[n], st.sums[n], st.recs)} ::
         n in st.queues ==> LevelOk(n, st.queues[n], st.sums[n], st.recs)
  }

  /** Queued orders are in the index at their own level, entries point at queued orders, and nothing else is stored. */
  ghost predicate IndexOk(index: map<nat, OrderLoc>, st: Store) {
    && QueuesIndexed(index, st)
    && (forall id {:trigger EntryOk(id, index[id], st.queues, st.recs)} ::
          id in index ==> EntryOk(id, index[id], st.queues, st.recs))
    && RecsIndexed(index, st.recs)
  }

  ghost predicate QueuesIndexed(index: map<nat, OrderLoc>, st: Store) {
    forall n {:trigger Indexed(index, n, st.queues[n], st.recs)} ::
      n in st.queues ==> Indexed(index, n, st.queues[n], st.recs)
  }

  ghost predicate Indexed(index: map<nat, OrderLoc>, n: PriceNode, q: seq<Order>, recs: map<Order, OrderRec>) {
    forall o :: o in q ==> o in recs && recs[o].id in index && index[recs[o].id] == OrderLoc(n, o)
  }

  ghost predicate EntryOk(id: nat, loc: OrderLoc, queues: map<PriceNode, seq<Order>>, recs: map<Order, OrderRec>) {
    && loc.node in queues && loc.element in queues[loc.node]
    && loc.element in recs && recs[loc.element].id == id
  }

  ghost predicate RecsIndexed(index: map<nat, OrderLoc>, recs: map<Order, OrderRec>) {
    forall o {:trigger RecIndexed(index, o, recs[o])} :: o in recs ==> RecIndexed(index, o, recs[o])
  }

  ghost predicate RecIndexed(index: map<nat, OrderLoc>, o: Order, r: OrderRec) {
    r.id in index && index[r.id].element == o
  }

  /** The price lists and maps describe the levels `ns`. */
  ghost predicate Shaped(l: Layout, ns: set<PriceNode>) {
    && Listed(Buy, l.bidPrices, l.bids)
    && Listed(Sell, l.askPrices, l.asks)
    && Files(ns, l.bids, l.asks)
  }

  ghost predicate Coherent(l: Layout, st: Store) {
    && Shaped(l, st.queues.Keys)
    && LevelsOk(st)
    && IndexOk(l.index, st)
  }

  ghost predicate NoneEmpty(st: Store) {
    forall n :: n in st.queues ==> st.queues[n] != []
  }

  // ----- The flat lists -----

  ghost predicate Legible(st: Store) {
    forall n {:trigger Known(st.queues[n], st.recs)} :: n in st.queues ==> Known(st.queues[n], st.recs)
  }

  lemma {:induction false} LevelsLegible(st: Store)
    requires LevelsOk(st)
    ensures Legible(st)
  {
    forall n | n in st.queues
      ensures Known(st.queues[n], st.recs)
    {
      assert LevelOk(n, st.queues[n], st.sums[n], st.recs);
    }
  }

  ghost predicate Readable(prices: seq<int>, nodes: map<int, PriceNode>, st: Store) {
    && Legible(st)
    && (forall p :: p in nodes ==> nodes[p] in st.queues)
    && (forall i :: 0 <= i < |prices| ==> prices[i] in nodes)
  }

  ghost function ViewOf(nodes: map<int, PriceNode>, st: Store): View
    requires Readable([], nodes, st)
  {
    map p | p in nodes :: LevelRecs(st.queues[nodes[p]], st.recs)
  }

  ghost function FlatOf(prices: seq<int>, nodes: map<int, PriceNode>, st: Store): seq<OrderRec>
    requires Readable(prices, nodes, st)
  {
    Flat(prices, ViewOf(nodes, st))
  }

  lemma {:induction false} CoherentReadable(l: Layout, st: Store, side: Side)
    requires Coherent(l, st)
    ensures Readable(l.Prices(side), l.Nodes(side), st)
  {
    LevelsLegible(st);
    assert forall i :: 0 <= i < |l.Prices(side)| ==> l.Prices(side)[i] in l.Prices(side);
  }

  ghost function FlatSide(l: Layout, st: Store, side: Side): seq<OrderRec>
    requires Coherent(l, st)
  {
    CoherentReadable(l, st, side);
    FlatOf(l.Prices(side), l.Nodes(side), st)
  }

  // ----- Changing one level -----

  ghost predicate SameRecs(q: seq<Order>, recs: map<Order, OrderRec>, recs': map<Order, OrderRec>) {
    forall i :: 0 <= i < |q| ==> q[i] in recs && q[i] in recs' && recs'[q[i]] == recs[q[i]]
  }

  /** The same levels, and nothing about any level but `node` has changed. */
  ghost predicate OthersKept(st: Store, st': Store, node: PriceNode) {
    && st'.queues.Keys == st.queues.Keys == st.sums.Keys == st'.sums.Keys
    && forall n :: n in st.queues && n != node ==>
         st'.queues[n] == st.queues[n] && st'.sums[n] == st.sums[n] && SameRecs(st.queues[n], st.recs, st'.recs)
  }

  lemma {:induction false} OtherLevelKept(st: Store, st': Store, node: PriceNode, n: PriceNode)
    requires Legible(st) && OthersKept(st, st', node) && n in st.queues && n != node
    ensures Known(st'.queues[n], st'.recs)
    ensures LevelRecs(st'.queues[n], st'.recs) == LevelRecs(st.queues[n], st.recs)
  {
    LevelRecsFrame(st.queues[n], st.recs, st'.recs);
  }

  lemma {:induction false} LevelsKept(st: Store, st': Store, node: PriceNode)
    requires LevelsOk(st) && OthersKept(st, st', node) && node in st.queues
    requires LevelOk(node, st'.queues[node], st'.sums[node], st'.recs)
    ensures LevelsOk(st')
  {
    LevelsLegible(st);
    forall n | n in st.queues && n != node
      ensures LevelOk(n, st'.queues[n], st'.sums[n], st'.recs)
    {
      assert LevelOk(n, st.queues[n], st.sums[n], st.recs);
      OtherLevelKept(st, st', node, n);
    }
  }

  /** On the flat lists, only the stretch of the changed level changes. */
  lemma {:induction false} OtherSideKept(prices: seq<int>, nodes: map<int, PriceNode>, st: Store, st': Store,
                                         node: PriceNode)
    requires Readable(prices, nodes, st) && Readable(prices, nodes, st') && OthersKept(st, st', node)
    requires node in st.queues && forall p :: p in nodes ==> nodes[p] != node
    ensures FlatOf(prices, nodes, st') == FlatOf(prices, nodes, st)
  {
    var view, view' := ViewOf(nodes, st), ViewOf(nodes, st');
    forall i | 0 <= i < |prices|
      ensures view'[prices[i]] == view[prices[i]]
    {
      var p := prices[i];
      assert p in nodes;
      OtherLevelKept(st, st', node, nodes[p]);
    }
    FlatFrame(prices, view, view');
  }

  lemma {:induction false} OwnSideKept(prices: seq<int>, nodes: map<int, PriceNode>, st: Store, st': Store,
                                       node: PriceNode)
    requires Readable(prices, nodes, st) && Readable(prices, nodes, st') && OthersKept(st, st', node)
    requires node in st.queues && node.price in nodes && nodes[node.price] == node
    requires forall p :: p in nodes ==> nodes[p].price == p
    ensures
      FlatOf(prices, nodes, st') ==
      Flat(prices, ViewOf(nodes, st)[node.price := LevelRecs(st'.queues[node], st'.recs)])
  {
    var view' := ViewOf(nodes, st');
    var view := ViewOf(nodes, st)[node.price := LevelRecs(st'.queues[node], st'.recs)];
    forall i | 0 <= i < |prices|
      ensures view'[prices[i]] == view[prices[i]]
    {
      if prices[i] != node.price {
        OtherLevelKept(st, st', node, nodes[prices[i]]);
      }
    }
    FlatFrame(prices, view, view');
  }

  lemma {:induction false} FiledAt(l: Layout, ns: set<PriceNode>, node: PriceNode)
    requires Shaped(l, ns) && node in ns
    ensures
      var nodes, others := l.Nodes(node.side), l.Nodes(node.side.Opposite());
      && node.price in nodes && nodes[node.price] == node && node.price in l.Prices(node.side)
      && (forall p :: p in nodes ==> nodes[p].price == p)
      && (forall p :: p in others ==> others[p] != node)
  {
    var nodes, others := l.Nodes(node.side), l.Nodes(node.side.Opposite());
    assert FiledIn(node, l.bids, l.asks);
    forall p | p in nodes
      ensures nodes[p].price == p
    {
      assert NodeAt(node.side, p, nodes[p]);
    }
    forall p | p in others
      ensures others[p] != node
    {
      assert NodeAt(node.side.Opposite(), p, others[p]);
    }
  }

  lemma {:induction false} SidesKept(l: Layout, index: map<nat, OrderLoc>, st: Store, st': Store, node: PriceNode)
    requires Coherent(l, st) && Coherent(l.(index := index), st') && OthersKept(st, st', node) && node in st.queues
    ensures
      var prices, nodes := l.Prices(node.side), l.Nodes(node.side);
      && Readable(prices, nodes, st) && Known(st'.queues[node], st'.recs)
      && FlatSide(l.(index := index), st', node.side.Opposite()) == FlatSide(l, st, node.side.Opposite())
      && FlatSide(l.(index := index), st', node.side) ==
         Flat(prices, ViewOf(nodes, st)[node.price := LevelRecs(st'.queues[node], st'.recs)])
  {
    var side, other := node.side, node.side.Opposite();
    var l' := l.(index := index);
    FiledAt(l, st.queues.Keys, node);
    LevelsLegible(st');
    assert Known(st'.queues[node], st'.recs);
    CoherentReadable(l, st, side);
    CoherentReadable(l, st, other);
    CoherentReadable(l', st', side);
    CoherentReadable(l', st', other);
    OtherSideKept(l.Prices(other), l.Nodes(other), st, st', node);
    OwnSideKept(l.Prices(side), l.Nodes(side), st, st', node);
  }
}
