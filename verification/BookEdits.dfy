/**
 The edits the book's methods make, as steps on the picture: each keeps the picture coherent, and each is the
 expected change of the two flat lists.
 */
module BookEdits {
  import opened Types
  import opened FlatBook
  import opened PriceLevels
  import opened EngineSpec
  import opened BookLaws
  import opened BookStore

  // ----- An order leaves its level -----

  function Without(q: seq<Order>, o: Order): seq<Order> {
    if q == [] then [] else if q[0] == o then q[1..] else [q[0]] + Without(q[1..], o)
  }

  ghost predicate Lacks(q': seq<Order>, q: seq<Order>, o: Order) {
    && (forall x :: x in q' ==> x in q && x != o)
    && (forall x :: x in q && x != o ==> x in q')
  }

  ghost predicate QueuedIn(st: Store, node: PriceNode, o: Order) {
    node in st.queues && node in st.sums && o in st.queues[node] && o in st.recs
  }

  ghost function RemoveStore(st: Store, node: PriceNode, o: Order): Store
    requires QueuedIn(st, node, o)
  {
    Store(st.queues[node := Without(st.queues[node], o)],
          st.sums[node := st.sums[node] - st.recs[o].remaining],
          st.recs - {o})
  }

  lemma {:induction false} WithoutRecs(q: seq<Order>, recs: map<Order, OrderRec>, o: Order)
    requires Known(q, recs) && DistinctIds(LevelRecs(q, recs)) && o in q
    ensures Lacks(Without(q, o), q, o)
    ensures Known(Without(q, o), recs - {o})
    ensures LevelRecs(Without(q, o), recs - {o}) == Delete(recs[o].id, LevelRecs(q, recs))
  {
    var rest := q[1..];
    if q[0] == o {
      if o in rest {
        LevelRecsIds(rest, recs, o);
      }
      LevelRecsFrame(rest, recs, recs - {o});
      DeleteAbsent(recs[o].id, LevelRecs(rest, recs));
    } else {
      LevelRecsIds(rest, recs, o);
      WithoutRecs(rest, recs, o);
    }
  }

  /** What is left of a level when one of its orders is deleted. */
  lemma {:induction false} DeleteKeepsLevel(side: Side, price: int, q: seq<OrderRec>, k: nat)
    requires k < |q| && DistinctIds(q) && Belong(side, price, q)
    ensures
      var q' := Delete(q[k].id, q);
      Sum(q') == Sum(q) - q[k].remaining && DistinctIds(q') && Belong(side, price, q')
  {
    DeleteAt(q, k);
    DeleteIds(q[k].id, q);
    assert q == q[..k] + ([q[k]] + q[k + 1..]);
    SumAppend(q[..k], [q[k]] + q[k + 1..]);
    SumAppend(q[..k], q[k + 1..]);
    assert ([q[k]] + q[k + 1..])[1..] == q[k + 1..];
  }

  lemma {:induction false} RemoveOwnLevel(st: Store, node: PriceNode, o: Order)
    requires LevelsOk(st) && QueuedIn(st, node, o)
    ensures
      var st' := RemoveStore(st, node, o);
      && o in st.recs
      && LevelOk(node, st'.queues[node], st'.sums[node], st'.recs)
      && LevelOk(node, st.queues[node], st.sums[node], st.recs)
      && LevelRecs(st'.queues[node], st'.recs) == Delete(st.recs[o].id, LevelRecs(st.queues[node], st.recs))
  {
    var q := st.queues[node];
    assert LevelOk(node, q, st.sums[node], st.recs);
    WithoutRecs(q, st.recs, o);
    LevelRecsIndex(q, st.recs);
    var k :| 0 <= k < |q| && q[k] == o;
    DeleteKeepsLevel(node.side, node.price, LevelRecs(q, st.recs), k);
  }

  lemma {:induction false} RemoveKeepsOthers(index: map<nat, OrderLoc>, st: Store, node: PriceNode, o: Order)
    requires LevelsOk(st) && QueuedIn(st, node, o) && QueuesIndexed(index, st)
    ensures OthersKept(st, RemoveStore(st, node, o), node)
  {
    assert Indexed(index, node, st.queues[node], st.recs);
    forall n | n in st.queues && n != node
      ensures SameRecs(st.queues[n], st.recs, st.recs - {o})
    {
      RemoveApart(index, n, st.queues[n], node, st.queues[node], st.recs, o);
    }
  }

  lemma RemoveApart(index: map<nat, OrderLoc>, n: PriceNode, q: seq<Order>, node: PriceNode,
                    queue: seq<Order>, recs: map<Order, OrderRec>, o: Order)
    requires Indexed(index, n, q, recs) && Indexed(index, node, queue, recs) && o in queue && n != node
    ensures o !in q && SameRecs(q, recs, recs - {o})
  {
  }

  lemma {:induction false} RemoveIndexed(index: map<nat, OrderLoc>, n: PriceNode, q: seq<Order>, q': seq<Order>,
                                         recs: map<Order, OrderRec>, o: Order)
    requires Indexed(index, n, q, recs) && o in recs && RecsIndexed(index, recs)
    requires Lacks(q', q, o)
    ensures Indexed(index - {recs[o].id}, n, q', recs - {o})
  {
    forall x | x in q'
      ensures x in recs && recs[x].id in index && index[recs[x].id] == OrderLoc(n, x) && recs[x].id != recs[o].id
    {
      assert x in q && RecIndexed(index, o, recs[o]);
    }
  }

  lemma {:induction false} RemoveRecs(index: map<nat, OrderLoc>, recs: map<Order, OrderRec>, o: Order)
    requires o in recs && RecsIndexed(index, recs)
    ensures RecsIndexed(index - {recs[o].id}, recs - {o})
  {
    assert RecIndexed(index, o, recs[o]);
    forall x | x in recs && x != o
      ensures RecIndexed(index - {recs[o].id}, x, recs[x])
    {
      assert RecIndexed(index, x, recs[x]);
    }
  }

  lemma RemoveEntry(id: nat, loc: OrderLoc, st: Store, node: PriceNode, o: Order)
    requires QueuedIn(st, node, o) && o in st.recs && EntryOk(id, loc, st.queues, st.recs) && loc.element != o
    requires Lacks(Without(st.queues[node], o), st.queues[node], o)
    ensures EntryOk(id, loc, RemoveStore(st, node, o).queues, RemoveStore(st, node, o).recs)
  {
  }

  lemma {:induction false} RemoveKeepsIndex(index: map<nat, OrderLoc>, st: Store, node: PriceNode, o: Order)
    requires QueuedIn(st, node, o) && IndexOk(index, st) && o in st.recs
    requires Lacks(Without(st.queues[node], o), st.queues[node], o)
    ensures IndexOk(index - {st.recs[o].id}, RemoveStore(st, node, o))
  {
    var st' := RemoveStore(st, node, o);
    var index' := index - {st.recs[o].id};
    assert Indexed(index, node, st.queues[node], st.recs);
    RemoveRecs(index, st.recs, o);
    forall n | n in st'.queues
      ensures Indexed(index', n, st'.queues[n], st'.recs)
    {
      var q, q' := st.queues[n], st'.queues[n];
      if n == node {
        assert q' == Without(q, o);
      } else {
        RemoveApart(index, n, q, node, st.queues[node], st.recs, o);
        assert q' == q;
      }
      RemoveIndexed(index, n, q, q', st.recs, o);
    }
    forall id | id in index'
      ensures EntryOk(id, index'[id], st'.queues, st'.recs)
    {
      assert EntryOk(id, index[id], st.queues, st.recs);
      RemoveEntry(id, index[id], st, node, o);
    }
  }

  lemma {:induction false} RemoveKeeps(l: Layout, st: Store, node: PriceNode, o: Order)
    requires Coherent(l, st) && QueuedIn(st, node, o)
    ensures o in st.recs && Coherent(l.(index := l.index - {st.recs[o].id}), RemoveStore(st, node, o))
    ensures OthersKept(st, RemoveStore(st, node, o), node)
  {
    RemoveOwnLevel(st, node, o);
    WithoutRecs(st.queues[node], st.recs, o);
    RemoveKeepsOthers(l.index, st, node, o);
    RemoveKeepsIndex(l.index, st, node, o);
    LevelsKept(st, RemoveStore(st, node, o), node);
  }

  lemma {:induction false} OwnerOf(q: seq<Order>, recs: map<Order, OrderRec>, id: nat) returns (o: Order)
    requires Known(q, recs) && id in Ids(LevelRecs(q, recs))
    ensures o in q && recs[o].id == id
  {
    var k := IdPosition(id, LevelRecs(q, recs));
    LevelRecsIndex(q, recs);
    o := q[k];
  }

  lemma {:induction false} IdElsewhere(index: map<nat, OrderLoc>, n: PriceNode, q: seq<Order>,
                                       recs: map<Order, OrderRec>, id: nat)
    requires Known(q, recs) && Indexed(index, n, q, recs) && (id in index ==> index[id].node != n)
    ensures id !in Ids(LevelRecs(q, recs))
  {
    if id in Ids(LevelRecs(q, recs)) {
      var o := OwnerOf(q, recs, id);
    }
  }

  ghost predicate Nowhere(id: nat, prices: seq<int>, view: View, except: set<int>)
    requires Covers(prices, view)
  {
    forall i :: 0 <= i < |prices| && prices[i] !in except ==> id !in Ids(view[prices[i]])
  }

  lemma {:induction false} IdNowhere(prices: seq<int>, nodes: map<int, PriceNode>, index: map<nat, OrderLoc>,
                                     st: Store, id: nat, except: set<int>)
    requires Readable(prices, nodes, st) && IndexOk(index, st)
    requires id in index ==> forall p :: p in nodes && p !in except ==> nodes[p] != index[id].node
    ensures Nowhere(id, prices, ViewOf(nodes, st), except)
  {
    forall i | 0 <= i < |prices| && prices[i] !in except
      ensures id !in Ids(ViewOf(nodes, st)[prices[i]])
    {
      var p := prices[i];
      assert p in nodes;
      var n := nodes[p];
      assert n in st.queues;
      assert Indexed(index, n, st.queues[n], st.recs);
      IdElsewhere(index, n, st.queues[n], st.recs, id);
    }
  }

  lemma {:induction false} RemoveOwnSide(prices: seq<int>, nodes: map<int, PriceNode>, index: map<nat, OrderLoc>,
                                         st: Store, node: PriceNode, o: Order)
    requires Readable(prices, nodes, st) && IndexOk(index, st) && StrictlySorted(node.side, prices)
    requires QueuedIn(st, node, o) && o in st.recs && node.price in prices && Known(st.queues[node], st.recs)
    requires forall p :: p in nodes ==> (p == node.price <==> nodes[p] == node)
    ensures
      Flat(prices, ViewOf(nodes, st)[node.price := Delete(st.recs[o].id, LevelRecs(st.queues[node], st.recs))]) ==
      Delete(st.recs[o].id, FlatOf(prices, nodes, st))
  {
    assert Indexed(index, node, st.queues[node], st.recs);
    IdNowhere(prices, nodes, index, st, st.recs[o].id, {node.price});
    LeaveLevel(st.recs[o].id, node.price, node.side, prices, ViewOf(nodes, st));
  }

  lemma {:induction false} RemoveOtherSide(prices: seq<int>, nodes: map<int, PriceNode>, index: map<nat, OrderLoc>,
                                           st: Store, node: PriceNode, o: Order)
    requires Readable(prices, nodes, st) && IndexOk(index, st) && QueuedIn(st, node, o) && o in st.recs
    requires forall p :: p in nodes ==> nodes[p] != node
    ensures FlatOf(prices, nodes, st) == Delete(st.recs[o].id, FlatOf(prices, nodes, st))
  {
    assert Indexed(index, node, st.queues[node], st.recs);
    IdNowhere(prices, nodes, index, st, st.recs[o].id, {});
    DeleteNowhere(st.recs[o].id, prices, ViewOf(nodes, st));
  }

  /** On the flat lists, removing an order deletes its id. */
  lemma {:induction false} RemoveFlat(l: Layout, st: Store, node: PriceNode, o: Order)
    requires Coherent(l, st) && QueuedIn(st, node, o) && o in st.recs
    requires Coherent(l.(index := l.index - {st.recs[o].id}), RemoveStore(st, node, o))
    requires OthersKept(st, RemoveStore(st, node, o), node)
    ensures
      var l' := l.(index := l.index - {st.recs[o].id});
      var st' := RemoveStore(st, node, o);
      && FlatSide(l', st', node.side) == Delete(st.recs[o].id, FlatSide(l, st, node.side))
      && FlatSide(l', st', node.side.Opposite()) == Delete(st.recs[o].id, FlatSide(l, st, node.side.Opposite()))
  {
    var side, other := node.side, node.side.Opposite();
    SidesKept(l, l.index - {st.recs[o].id}, st, RemoveStore(st, node, o), node);
    FiledAt(l, st.queues.Keys, node);
    CoherentReadable(l, st, other);
    RemoveOwnLevel(st, node, o);
    RemoveOwnSide(l.Prices(side), l.Nodes(side), l.index, st, node, o);
    RemoveOtherSide(l.Prices(other), l.Nodes(other), l.index, st, node, o);
  }

  // ----- The front order of the best level is filled -----

  lemma {:induction false} DeleteFront(q: seq<OrderRec>)
    requires q != [] && DistinctIds(q)
    ensures Delete(q[0].id, q) == q[1..]
  {
    DeleteAt(q, 0);
    assert q[..0] + q[1..] == q[1..];
  }

  ghost predicate Fillable(st: Store, node: PriceNode, qty: int) {
    && node in st.queues && node in st.sums && st.queues[node] != []
    && st.queues[node][0] in st.recs && 0 < qty <= st.recs[st.queues[node][0]].remaining
  }

  /** A partial fill: only the front order's fields and the cached quantity change. */
  ghost function ReduceStore(st: Store, node: PriceNode, qty: int): Store
    requires Fillable(st, node, qty)
  {
    var maker := st.queues[node][0];
    Store(st.queues, st.sums[node := st.sums[node] - qty], st.recs[maker := AfterFill(st.recs[maker], qty)])
  }

  /** A fill: a maker that is used up leaves its level. */
  ghost function FillStore(st: Store, node: PriceNode, qty: int): Store
    requires Fillable(st, node, qty)
  {
    var maker := st.queues[node][0];
    if st.recs[maker].remaining == qty then RemoveStore(st, node, maker) else ReduceStore(st, node, qty)
  }

  ghost function FillIndex(index: map<nat, OrderLoc>, st: Store, node: PriceNode, qty: int): map<nat, OrderLoc>
    requires Fillable(st, node, qty)
  {
    var m := st.recs[st.queues[node][0]];
    if m.remaining == qty then index - {m.id} else index
  }

  lemma {:induction false} ReduceKeepsLevel(side: Side, price: int, q: seq<OrderRec>, qty: int)
    requires q != [] && DistinctIds(q) && Belong(side, price, q) && 0 < qty < q[0].remaining
    ensures
      var q' := AfterFront(q, qty);
      Sum(q') == Sum(q) - qty && DistinctIds(q') && Belong(side, price, q')
  {
    assert AfterFront(q, qty)[1..] == q[1..];
  }

  lemma {:induction false} ReduceOwnLevel(st: Store, node: PriceNode, qty: int)
    requires LevelsOk(st) && Fillable(st, node, qty) && qty < st.recs[st.queues[node][0]].remaining
    ensures
      var st' := ReduceStore(st, node, qty);
      && LevelOk(node, st'.queues[node], st'.sums[node], st'.recs)
      && LevelOk(node, st.queues[node], st.sums[node], st.recs)
      && LevelRecs(st'.queues[node], st'.recs) == AfterFront(LevelRecs(st.queues[node], st.recs), qty)
  {
    var q := st.queues[node];
    assert LevelOk(node, q, st.sums[node], st.recs);
    if q[0] in q[1..] {
      LevelRecsIds(q[1..], st.recs, q[0]);
    }
    LevelRecsFrame(q[1..], st.recs, ReduceStore(st, node, qty).recs);
    ReduceKeepsLevel(node.side, node.price, LevelRecs(q, st.recs), qty);
  }

  /** Changing an order's fields, but not its id, concerns only its own level and leaves the index right. */
  lemma RefillApart(index: map<nat, OrderLoc>, n: PriceNode, q: seq<Order>, node: PriceNode,
                    queue: seq<Order>, recs: map<Order, OrderRec>, o: Order, r: OrderRec)
    requires Indexed(index, n, q, recs) && Indexed(index, node, queue, recs) && o in queue && r.id == recs[o].id
    ensures n != node ==> SameRecs(q, recs, recs[o := r])
    ensures Indexed(index, n, q, recs[o := r])
  {
  }

  lemma {:induction false} RefillRecs(index: map<nat, OrderLoc>, recs: map<Order, OrderRec>, o: Order, r: OrderRec)
    requires RecsIndexed(index, recs) && o in recs && r.id == recs[o].id
    ensures RecsIndexed(index, recs[o := r])
  {
    forall x | x in recs
      ensures RecIndexed(index, x, recs[o := r][x])
    {
      assert RecIndexed(index, x, recs[x]);
    }
  }

  lemma RefillEntry(id: nat, loc: OrderLoc, queues: map<PriceNode, seq<Order>>,
                    recs: map<Order, OrderRec>, o: Order, r: OrderRec)
    requires EntryOk(id, loc, queues, recs) && o in recs && r.id == recs[o].id
    ensures EntryOk(id, loc, queues, recs[o := r])
  {
  }

  lemma {:induction false} ReduceKeepsIndex(index: map<nat, OrderLoc>, st: Store, node: PriceNode, qty: int)
    requires Fillable(st, node, qty) && IndexOk(index, st)
    ensures IndexOk(index, ReduceStore(st, node, qty))
  {
    var st' := ReduceStore(st, node, qty);
    var maker := st.queues[node][0];
    RefillRecs(index, st.recs, maker, st'.recs[maker]);
    forall n | n in st.queues
      ensures Indexed(index, n, st.queues[n], st'.recs)
    {
      RefillApart(index, n, st.queues[n], node, st.queues[node], st.recs, maker, st'.recs[maker]);
    }
    forall id | id in index
      ensures EntryOk(id, index[id], st'.queues, st'.recs)
    {
      assert EntryOk(id, index[id], st.queues, st.recs);
      RefillEntry(id, index[id], st.queues, st.recs, maker, st'.recs[maker]);
    }
  }

  lemma {:induction false} ReduceKeepsOthers(index: map<nat, OrderLoc>, st: Store, node: PriceNode, qty: int)
    requires LevelsOk(st) && Fillable(st, node, qty) && QueuesIndexed(index, st)
    ensures OthersKept(st, ReduceStore(st, node, qty), node)
  {
    var st' := ReduceStore(st, node, qty);
    var maker := st.queues[node][0];
    forall n | n in st.queues && n != node
      ensures SameRecs(st.queues[n], st.recs, st'.recs)
    {
      RefillApart(index, n, st.queues[n], node, st.queues[node], st.recs, maker, st'.recs[maker]);
    }
  }

  lemma {:induction false} ReduceKeeps(l: Layout, st: Store, node: PriceNode, qty: int)
    requires Coherent(l, st) && Fillable(st, node, qty) && qty < st.recs[st.queues[node][0]].remaining
    ensures Coherent(l, ReduceStore(st, node, qty)) && OthersKept(st, ReduceStore(st, node, qty), node)
  {
    ReduceOwnLevel(st, node, qty);
    ReduceKeepsIndex(l.index, st, node, qty);
    ReduceKeepsOthers(l.index, st, node, qty);
    LevelsKept(st, ReduceStore(st, node, qty), node);
  }

  lemma {:induction false} FillKeeps(l: Layout, st: Store, node: PriceNode, qty: int)
    requires Coherent(l, st) && Fillable(st, node, qty)
    ensures Coherent(l.(index := FillIndex(l.index, st, node, qty)), FillStore(st, node, qty))
    ensures OthersKept(st, FillStore(st, node, qty), node)
  {
    var maker := st.queues[node][0];
    if st.recs[maker].remaining == qty {
      RemoveKeeps(l, st, node, maker);
    } else {
      assert l.(index := l.index) == l;
      ReduceKeeps(l, st, node, qty);
    }
  }

  lemma {:induction false} FillOwnLevel(st: Store, node: PriceNode, qty: int)
    requires LevelsOk(st) && Fillable(st, node, qty)
    ensures
      var st' := FillStore(st, node, qty);
      && LevelOk(node, st.queues[node], st.sums[node], st.recs)
      && LevelOk(node, st'.queues[node], st'.sums[node], st'.recs)
      && LevelRecs(st'.queues[node], st'.recs) == AfterFront(LevelRecs(st.queues[node], st.recs), qty)
  {
    var maker := st.queues[node][0];
    if st.recs[maker].remaining == qty {
      RemoveOwnLevel(st, node, maker);
      DeleteFront(LevelRecs(st.queues[node], st.recs));
    } else {
      ReduceOwnLevel(st, node, qty);
    }
  }

  lemma {:induction false} FillOwnSide(prices: seq<int>, nodes: map<int, PriceNode>, st: Store, node: PriceNode,
                                       qty: int)
    requires Readable(prices, nodes, st) && StrictlySorted(node.side, prices) && Fillable(st, node, qty)
    requires prices != [] && prices[0] == node.price && nodes[prices[0]] == node && Known(st.queues[node], st.recs)
    ensures
      var flat := FlatOf(prices, nodes, st);
      && flat != [] && flat[0] == st.recs[st.queues[node][0]]
      && Flat(prices, ViewOf(nodes, st)[node.price := AfterFront(LevelRecs(st.queues[node], st.recs), qty)]) ==
         AfterFront(flat, qty)
  {
    FillFrontOfFlat(node.side, prices, ViewOf(nodes, st), qty);
  }

  /** On the flat lists, filling the front of the best level fills the front of its side. */
  lemma {:induction false} FillFlat(l: Layout, st: Store, node: PriceNode, qty: int)
    requires Coherent(l, st) && Fillable(st, node, qty)
    requires l.Prices(node.side) != [] && l.Prices(node.side)[0] == node.price
    requires Coherent(l.(index := FillIndex(l.index, st, node, qty)), FillStore(st, node, qty))
    requires OthersKept(st, FillStore(st, node, qty), node)
    ensures
      var l' := l.(index := FillIndex(l.index, st, node, qty));
      var st' := FillStore(st, node, qty);
      var flat := FlatSide(l, st, node.side);
      && FlatSide(l', st', node.side.Opposite()) == FlatSide(l, st, node.side.Opposite())
      && flat != [] && flat[0] == st.recs[st.queues[node][0]]
      && FlatSide(l', st', node.side) == AfterFront(flat, qty)
  {
    SidesKept(l, FillIndex(l.index, st, node, qty), st, FillStore(st, node, qty), node);
    FiledAt(l, st.queues.Keys, node);
    FillOwnLevel(st, node, qty);
    FillOwnSide(l.Prices(node.side), l.Nodes(node.side), st, node, qty);
  }

  // ----- An order joins a level -----

  ghost predicate Pushable(index: map<nat, OrderLoc>, st: Store, node: PriceNode, o: Order, r: OrderRec) {
    && LevelsOk(st) && IndexOk(index, st) && node in st.queues
    && node in st.sums && o !in st.recs && r.id !in index
    && r.remaining > 0 && r.price == node.price && r.side == node.side
  }

  ghost function PushStore(st: Store, node: PriceNode, o: Order, r: OrderRec): Store
    requires node in st.queues && node in st.sums
  {
    Store(st.queues[node := st.queues[node] + [o]], st.sums[node := st.sums[node] + r.remaining], st.recs[o := r])
  }

  lemma {:induction false} PushRecs(q: seq<Order>, recs: map<Order, OrderRec>, o: Order, r: OrderRec)
    requires Known(q, recs) && o !in recs
    ensures Known(q + [o], recs[o := r])
    ensures LevelRecs(q + [o], recs[o := r]) == LevelRecs(q, recs) + [r]
  {
    if q == [] {
      assert q + [o] == [o] && [o][1..] == [];
    } else {
      assert (q + [o])[1..] == q[1..] + [o];
      PushRecs(q[1..], recs, o, r);
    }
  }

  lemma {:induction false} SnocDistinct(q: seq<OrderRec>, r: OrderRec)
    requires DistinctIds(q) && r.id !in Ids(q)
    ensures DistinctIds(q + [r]) && Ids(q + [r]) == Ids(q) + {r.id}
  {
    if q == [] {
      assert q + [r] == [r] && [r][1..] == [];
    } else {
      assert (q + [r])[1..] == q[1..] + [r];
      SnocDistinct(q[1..], r);
    }
  }

  lemma {:induction false} PushOwnLevel(index: map<nat, OrderLoc>, st: Store, node: PriceNode, o: Order, r: OrderRec)
    requires Pushable(index, st, node, o, r)
    ensures
      var st' := PushStore(st, node, o, r);
      && LevelOk(node, st.queues[node], st.sums[node], st.recs)
      && LevelOk(node, st'.queues[node], st'.sums[node], st'.recs)
      && LevelRecs(st'.queues[node], st'.recs) == LevelRecs(st.queues[node], st.recs) + [r]
  {
    var q := st.queues[node];
    assert LevelOk(node, q, st.sums[node], st.recs) && Indexed(index, node, q, st.recs);
    PushRecs(q, st.recs, o, r);
    IdElsewhere(index, node, q, st.recs, r.id);
    SnocDistinct(LevelRecs(q, st.recs), r);
    SumAppend(LevelRecs(q, st.recs), [r]);
    assert [r][1..] == [];
  }

  lemma PushApart(index: map<nat, OrderLoc>, n: PriceNode, q: seq<Order>, node: PriceNode,
                  recs: map<Order, OrderRec>, o: Order, r: OrderRec)
    requires Indexed(index, n, q, recs) && o !in recs && r.id !in index
    ensures SameRecs(q, recs, recs[o := r]) && Indexed(index[r.id := OrderLoc(node, o)], n, q, recs[o := r])
    ensures n == node ==> Indexed(index[r.id := OrderLoc(node, o)], n, q + [o], recs[o := r])
  {
  }

  lemma {:induction false} PushedRecs(index: map<nat, OrderLoc>, recs: map<Order, OrderRec>, node: PriceNode,
                                      o: Order, r: OrderRec)
    requires RecsIndexed(index, recs) && o !in recs && r.id !in index
    ensures RecsIndexed(index[r.id := OrderLoc(node, o)], recs[o := r])
  {
    forall x | x in recs
      ensures RecIndexed(index[r.id := OrderLoc(node, o)], x, recs[x])
    {
      assert RecIndexed(index, x, recs[x]);
    }
  }

  lemma PushEntry(id: nat, loc: OrderLoc, st: Store, node: PriceNode, o: Order, r: OrderRec)
    requires EntryOk(id, loc, st.queues, st.recs) && node in st.queues && node in st.sums && o !in st.recs
    ensures EntryOk(id, loc, PushStore(st, node, o, r).queues, PushStore(st, node, o, r).recs)
  {
  }

  lemma {:induction false} PushKeepsIndex(index: map<nat, OrderLoc>, st: Store, node: PriceNode, o: Order, r: OrderRec)
    requires Pushable(index, st, node, o, r)
    ensures IndexOk(index[r.id := OrderLoc(node, o)], PushStore(st, node, o, r))
  {
    var st' := PushStore(st, node, o, r);
    var index' := index[r.id := OrderLoc(node, o)];
    PushedRecs(index, st.recs, node, o, r);
    forall n | n in st'.queues
      ensures Indexed(index', n, st'.queues[n], st'.recs)
    {
      PushApart(index, n, st.queues[n], node, st.recs, o, r);
    }
    forall id | id in index'
      ensures EntryOk(id, index'[id], st'.queues, st'.recs)
    {
      if id != r.id {
        assert EntryOk(id, index[id], st.queues, st.recs);
        PushEntry(id, index[id], st, node, o, r);
      }
    }
  }

  lemma {:induction false} PushKeepsOthers(index: map<nat, OrderLoc>, st: Store, node: PriceNode, o: Order, r: OrderRec)
    requires Pushable(index, st, node, o, r)
    ensures OthersKept(st, PushStore(st, node, o, r), node)
  {
    forall n | n in st.queues
      ensures SameRecs(st.queues[n], st.recs, st.recs[o := r])
    {
      PushApart(index, n, st.queues[n], node, st.recs, o, r);
    }
  }

  lemma {:induction false} PushKeeps(l: Layout, st: Store, node: PriceNode, o: Order, r: OrderRec)
    requires Coherent(l, st) && Pushable(l.index, st, node, o, r)
    ensures Coherent(l.(index := l.index[r.id := OrderLoc(node, o)]), PushStore(st, node, o, r))
    ensures OthersKept(st, PushStore(st, node, o, r), node)
  {
    PushOwnLevel(l.index, st, node, o, r);
    PushKeepsIndex(l.index, st, node, o, r);
    PushKeepsOthers(l.index, st, node, o, r);
    LevelsKept(st, PushStore(st, node, o, r), node);
  }

  // ----- Levels open and close -----

  ghost function OpenStore(st: Store, node: PriceNode): Store {
    st.(queues := st.queues[node := []], sums := st.sums[node := 0])
  }

  ghost function CloseStore(st: Store, node: PriceNode): Store {
    st.(queues := st.queues - {node}, sums := st.sums - {node})
  }

  /** Where a price belongs in a sorted price list. */
  ghost predicate Splits(side: Side, prices: seq<int>, k: nat, p: int) {
    && k <= |prices|
    && (forall i :: 0 <= i < k ==> Key(side, prices[i]) < Key(side, p))
    && (forall i :: k <= i < |prices| ==> Key(side, p) < Key(side, prices[i]))
  }

  function WithPrice(prices: seq<int>, k: nat, p: int): seq<int>
    requires k <= |prices|
  {
    prices[..k] + [p] + prices[k..]
  }

  function WithoutPrice(prices: seq<int>, k: nat): seq<int>
    requires k < |prices|
  {
    prices[..k] + prices[k + 1..]
  }

  lemma {:induction false} WithPriceSame(side: Side, prices: seq<int>, k: nat, p: int)
    requires Splits(side, prices, k, p) && StrictlySorted(side, prices)
    ensures StrictlySorted(side, WithPrice(prices, k, p))
    ensures forall x :: x in WithPrice(prices, k, p) <==> x in prices || x == p
  {
    var prices' := WithPrice(prices, k, p);
    forall x | x in prices
      ensures x in prices'
    {
      var i :| 0 <= i < |prices| && prices[i] == x;
      assert prices'[if i < k then i else i + 1] == x;
    }
    assert prices'[k] == p;
  }

  lemma {:induction false} WithoutPriceSame(side: Side, prices: seq<int>, k: nat)
    requires k < |prices| && StrictlySorted(side, prices)
    ensures StrictlySorted(side, WithoutPrice(prices, k))
    ensures forall x :: x in WithoutPrice(prices, k) <==> x in prices && x != prices[k]
  {
    var prices' := WithoutPrice(prices, k);
    forall x | x in prices && x != prices[k]
      ensures x in prices'
    {
      var i :| 0 <= i < |prices| && prices[i] == x;
      assert prices'[if i < k then i else i - 1] == x;
    }
  }

  lemma {:induction false} OpenListed(side: Side, prices: seq<int>, nodes: map<int, PriceNode>, k: nat, node: PriceNode)
    requires Listed(side, prices, nodes) && node.side == side && Splits(side, prices, k, node.price)
    ensures Listed(side, WithPrice(prices, k, node.price), nodes[node.price := node])
  {
    WithPriceSame(side, prices, k, node.price);
  }

  lemma {:induction false} CloseListed(side: Side, prices: seq<int>, nodes: map<int, PriceNode>, k: nat)
    requires Listed(side, prices, nodes) && k < |prices|
    ensures Listed(side, WithoutPrice(prices, k), nodes - {prices[k]})
  {
    WithoutPriceSame(side, prices, k);
  }

  lemma {:induction false} OpenLevels(st: Store, node: PriceNode)
    requires LevelsOk(st) && node !in st.queues
    ensures LevelsOk(OpenStore(st, node))
  {
    var st' := OpenStore(st, node);
    forall n | n in st.queues
      ensures LevelOk(n, st'.queues[n], st'.sums[n], st'.recs)
    {
      assert LevelOk(n, st.queues[n], st.sums[n], st.recs);
    }
  }

  lemma {:induction false} OpenIndex(index: map<nat, OrderLoc>, st: Store, node: PriceNode)
    requires IndexOk(index, st) && node !in st.queues
    ensures IndexOk(index, OpenStore(st, node))
  {
    var st' := OpenStore(st, node);
    forall n | n in st'.queues
      ensures Indexed(index, n, st'.queues[n], st'.recs)
    {
      assert n != node ==> Indexed(index, n, st.queues[n], st.recs);
    }
    forall id | id in index
      ensures EntryOk(id, index[id], st'.queues, st'.recs)
    {
      assert EntryOk(id, index[id], st.queues, st.recs);
    }
  }

  lemma {:induction false} CloseLevels(st: Store, node: PriceNode)
    requires LevelsOk(st)
    ensures LevelsOk(CloseStore(st, node))
  {
    var st' := CloseStore(st, node);
    forall n | n in st'.queues
      ensures LevelOk(n, st'.queues[n], st'.sums[n], st'.recs)
    {
      assert LevelOk(n, st.queues[n], st.sums[n], st.recs);
    }
  }

  lemma {:induction false} CloseIndex(index: map<nat, OrderLoc>, st: Store, node: PriceNode)
    requires IndexOk(index, st) && node in st.queues && st.queues[node] == []
    ensures IndexOk(index, CloseStore(st, node))
  {
    var st' := CloseStore(st, node);
    forall n | n in st'.queues
      ensures Indexed(index, n, st'.queues[n], st'.recs)
    {
      assert Indexed(index, n, st.queues[n], st.recs);
    }
    forall id | id in index
      ensures EntryOk(id, index[id], st'.queues, st'.recs)
    {
      assert EntryOk(id, index[id], st.queues, st.recs);
    }
  }

  ghost function OpenLayout(l: Layout, k: nat, node: PriceNode): Layout
    requires k <= |l.Prices(node.side)|
  {
    l.With(node.side, WithPrice(l.Prices(node.side), k, node.price), l.Nodes(node.side)[node.price := node])
  }

  ghost function CloseLayout(l: Layout, side: Side, k: nat): Layout
    requires k < |l.Prices(side)|
  {
    l.With(side, WithoutPrice(l.Prices(side), k), l.Nodes(side) - {l.Prices(side)[k]})
  }

  lemma {:induction false} OpenShape(l: Layout, ns: set<PriceNode>, k: nat, node: PriceNode)
    requires Shaped(l, ns) && node !in ns && node.price !in l.Nodes(node.side)
    requires Splits(node.side, l.Prices(node.side), k, node.price)
    ensures Shaped(OpenLayout(l, k, node), ns + {node})
  {
    var l' := OpenLayout(l, k, node);
    OpenListed(node.side, l.Prices(node.side), l.Nodes(node.side), k, node);
    forall n | n in ns + {node}
      ensures FiledIn(n, l'.bids, l'.asks)
    {
      assert n != node ==> FiledIn(n, l.bids, l.asks);
    }
  }

  lemma CloseWithin(nodes: map<int, PriceNode>, ns: set<PriceNode>, p: int, node: PriceNode)
    requires Within(nodes, ns) && forall x :: x in nodes && x != p ==> nodes[x] != node
    ensures Within(nodes - {p}, ns - {node})
  {
  }

  lemma {:induction false} CloseShape(l: Layout, ns: set<PriceNode>, k: nat, node: PriceNode)
    requires Shaped(l, ns) && node in ns && k < |l.Prices(node.side)| && l.Prices(node.side)[k] == node.price
    ensures Shaped(CloseLayout(l, node.side, k), ns - {node})
  {
    var l' := CloseLayout(l, node.side, k);
    CloseListed(node.side, l.Prices(node.side), l.Nodes(node.side), k);
    FiledAt(l, ns, node);
    CloseWithin(l.Nodes(node.side), ns, node.price, node);
    var others := l.Nodes(node.side.Opposite());
    assert Within(others, ns - {node});
    forall n | n in ns - {node}
      ensures FiledIn(n, l'.bids, l'.asks)
    {
      assert FiledIn(n, l.bids, l.asks);
    }
  }

  lemma {:induction false} OpenKeeps(l: Layout, st: Store, k: nat, node: PriceNode)
    requires Coherent(l, st) && node !in st.queues && node.price !in l.Nodes(node.side)
    requires Splits(node.side, l.Prices(node.side), k, node.price)
    ensures Coherent(OpenLayout(l, k, node), OpenStore(st, node))
  {
    OpenLevels(st, node);
    OpenIndex(l.index, st, node);
    OpenShape(l, st.queues.Keys, k, node);
    assert OpenStore(st, node).queues.Keys == st.queues.Keys + {node};
  }

  lemma {:induction false} CloseKeeps(l: Layout, st: Store, k: nat, node: PriceNode)
    requires Coherent(l, st) && node in st.queues && st.queues[node] == []
    requires k < |l.Prices(node.side)| && l.Prices(node.side)[k] == node.price
    ensures Coherent(CloseLayout(l, node.side, k), CloseStore(st, node))
  {
    CloseLevels(st, node);
    CloseIndex(l.index, st, node);
    CloseShape(l, st.queues.Keys, k, node);
    assert CloseStore(st, node).queues.Keys == st.queues.Keys - {node};
  }

  /** Reading a side through its nodes gives the same as before when its levels read the same. */
  lemma {:induction false} CloseOther(prices: seq<int>, nodes: map<int, PriceNode>, st: Store, node: PriceNode)
    requires Readable(prices, nodes, st) && Readable(prices, nodes, CloseStore(st, node))
    ensures FlatOf(prices, nodes, CloseStore(st, node)) == FlatOf(prices, nodes, st)
  {
    var view, view' := ViewOf(nodes, st), ViewOf(nodes, CloseStore(st, node));
    forall i | 0 <= i < |prices|
      ensures view'[prices[i]] == view[prices[i]]
    {
      var p := prices[i];
      assert p in nodes;
      assert nodes[p] in CloseStore(st, node).queues;
    }
    FlatFrame(prices, view, view');
  }

  lemma {:induction false} CloseOwn(prices: seq<int>, nodes: map<int, PriceNode>, st: Store, k: nat, node: PriceNode)
    requires Readable(prices, nodes, st) && k < |prices| && StrictlySorted(node.side, prices)
    requires node in st.queues && st.queues[node] == [] && nodes[prices[k]] == node
    requires Readable(WithoutPrice(prices, k), nodes - {prices[k]}, CloseStore(st, node))
    ensures FlatOf(WithoutPrice(prices, k), nodes - {prices[k]}, CloseStore(st, node)) == FlatOf(prices, nodes, st)
  {
    var p := prices[k];
    var view, view' := ViewOf(nodes, st), ViewOf(nodes - {p}, CloseStore(st, node));
    DropEmpty(k, prices, view);
    forall x | x in nodes - {p}
      ensures view'[x] == (view - {p})[x]
    {
      assert (nodes - {p})[x] in CloseStore(st, node).queues;
    }
    assert view' == view - {p};
  }

  /** Dropping an emptied level leaves the flat lists alone. */
  lemma {:induction false} CloseFlat(l: Layout, st: Store, k: nat, node: PriceNode, side: Side)
    requires Coherent(l, st) && node in st.queues && st.queues[node] == []
    requires k < |l.Prices(node.side)| && l.Prices(node.side)[k] == node.price
    requires Coherent(CloseLayout(l, node.side, k), CloseStore(st, node))
    ensures FlatSide(CloseLayout(l, node.side, k), CloseStore(st, node), side) == FlatSide(l, st, side)
  {
    FiledAt(l, st.queues.Keys, node);
    CoherentReadable(l, st, side);
    CoherentReadable(CloseLayout(l, node.side, k), CloseStore(st, node), side);
    if side == node.side {
      CloseOwn(l.Prices(side), l.Nodes(side), st, k, node);
    } else {
      CloseOther(l.Prices(side), l.Nodes(side), st, node);
    }
  }

  lemma {:induction false} NonEmptyFiled(side: Side, prices: seq<int>, nodes: map<int, PriceNode>, st: Store)
    requires Readable(prices, nodes, st) && LevelsOk(st) && NoneEmpty(st) && Listed(side, prices, nodes)
    ensures Filed(prices, ViewOf(nodes, st))
  {
    forall i | 0 <= i < |prices|
      ensures var q := ViewOf(nodes, st)[prices[i]]; q != [] && QueuedAt(prices[i], q)
    {
      var p := prices[i];
      assert p in nodes;
      var n := nodes[p];
      assert NodeAt(side, p, n);
      assert n in st.queues && LevelOk(n, st.queues[n], st.sums[n], st.recs);
    }
  }

  /** On the flat lists, joining an existing level is stable insertion. */
  lemma {:induction false} PushFlat(l: Layout, st: Store, node: PriceNode, o: Order, r: OrderRec)
    requires Coherent(l, st) && NoneEmpty(st) && Pushable(l.index, st, node, o, r)
    requires Coherent(l.(index := l.index[r.id := OrderLoc(node, o)]), PushStore(st, node, o, r))
    requires OthersKept(st, PushStore(st, node, o, r), node)
    ensures
      var l' := l.(index := l.index[r.id := OrderLoc(node, o)]);
      var st' := PushStore(st, node, o, r);
      && FlatSide(l', st', node.side.Opposite()) == FlatSide(l, st, node.side.Opposite())
      && FlatSide(l', st', node.side) == Insert(r, FlatSide(l, st, node.side))
  {
    var prices, nodes := l.Prices(node.side), l.Nodes(node.side);
    SidesKept(l, l.index[r.id := OrderLoc(node, o)], st, PushStore(st, node, o, r), node);
    FiledAt(l, st.queues.Keys, node);
    PushOwnLevel(l.index, st, node, o, r);
    NonEmptyFiled(node.side, prices, nodes, st);
    JoinLevel(r, prices, ViewOf(nodes, st));
  }

  lemma {:induction false} OpenOther(prices: seq<int>, nodes: map<int, PriceNode>, st: Store, node: PriceNode)
    requires Readable(prices, nodes, st) && Readable(prices, nodes, OpenStore(st, node)) && node !in st.queues
    ensures FlatOf(prices, nodes, OpenStore(st, node)) == FlatOf(prices, nodes, st)
  {
    var view, view' := ViewOf(nodes, st), ViewOf(nodes, OpenStore(st, node));
    forall i | 0 <= i < |prices|
      ensures view'[prices[i]] == view[prices[i]]
    {
      var p := prices[i];
      assert p in nodes;
      assert nodes[p] in st.queues;
    }
    FlatFrame(prices, view, view');
  }

  lemma {:induction false} OpenView(nodes: map<int, PriceNode>, st: Store, node: PriceNode, q: seq<OrderRec>)
    requires Readable([], nodes, st) && node !in st.queues
    requires Readable([], nodes[node.price := node], OpenStore(st, node))
    ensures
      ViewOf(nodes[node.price := node], OpenStore(st, node))[node.price := q] == ViewOf(nodes, st)[node.price := q]
  {
    var view, view' := ViewOf(nodes, st), ViewOf(nodes[node.price := node], OpenStore(st, node));
    forall p | p in nodes && p != node.price
      ensures p in view && p in view' && view'[p] == view[p]
    {
      assert nodes[p] in st.queues;
    }
    SameButOne(view, view', node.price, q);
  }

  lemma SameButOne(view: View, view': View, price: int, q: seq<OrderRec>)
    requires forall p :: p in view && p != price ==> p in view' && view'[p] == view[p]
    requires forall p :: p in view' && p != price ==> p in view
    ensures view'[price := q] == view[price := q]
  {
    var a, b := view'[price := q], view[price := q];
    assert forall p :: p in a <==> p in b;
    assert forall p :: p in a ==> a[p] == b[p];
  }

  lemma {:induction false} OpenOwn(prices: seq<int>, nodes: map<int, PriceNode>, st: Store, k: nat, node: PriceNode,
                                   r: OrderRec)
    requires Readable(prices, nodes, st) && node !in st.queues && node.price !in prices
    requires StrictlySorted(node.side, prices) && Splits(node.side, prices, k, node.price)
    requires Readable(WithPrice(prices, k, node.price), nodes[node.price := node], OpenStore(st, node))
    requires Filed(prices, ViewOf(nodes, st)) && r.price == node.price && r.side == node.side
    ensures
      var view := ViewOf(nodes[node.price := node], OpenStore(st, node));
      Flat(WithPrice(prices, k, node.price), view[node.price := [r]]) == Insert(r, FlatOf(prices, nodes, st))
  {
    OpenView(nodes, st, node, [r]);
    OpenLevel(r, prices, k, ViewOf(nodes, st));
  }

  lemma {:induction false} OpenReadable(l: Layout, st: Store, k: nat, node: PriceNode)
    requires Coherent(l, st) && NoneEmpty(st) && k <= |l.Prices(node.side)|
    requires Coherent(OpenLayout(l, k, node), OpenStore(st, node))
    ensures Readable(l.Prices(node.side), l.Nodes(node.side), st)
    ensures Readable(l.Prices(node.side.Opposite()), l.Nodes(node.side.Opposite()), st)
    ensures Filed(l.Prices(node.side), ViewOf(l.Nodes(node.side), st))
    ensures
      var l' := OpenLayout(l, k, node);
      && Readable(l'.Prices(node.side), l'.Nodes(node.side), OpenStore(st, node))
      && Readable(l.Prices(node.side.Opposite()), l.Nodes(node.side.Opposite()), OpenStore(st, node))
  {
    CoherentReadable(l, st, node.side);
    CoherentReadable(l, st, node.side.Opposite());
    CoherentReadable(OpenLayout(l, k, node), OpenStore(st, node), node.side);
    CoherentReadable(OpenLayout(l, k, node), OpenStore(st, node), node.side.Opposite());
    NonEmptyFiled(node.side, l.Prices(node.side), l.Nodes(node.side), st);
  }

  /** An empty level has just been opened, and an order has then joined it. */
  ghost predicate OpenedThenJoined(l: Layout, st: Store, k: nat, node: PriceNode, o: Order, r: OrderRec) {
    && Coherent(l, st) && NoneEmpty(st) && node !in st.queues && node.price !in l.Nodes(node.side)
    && Splits(node.side, l.Prices(node.side), k, node.price)
    && Coherent(OpenLayout(l, k, node), OpenStore(st, node)) && Pushable(l.index, OpenStore(st, node), node, o, r)
    && OthersKept(OpenStore(st, node), PushStore(OpenStore(st, node), node, o, r), node)
    && var l' := OpenLayout(l, k, node);
       Coherent(l'.(index := l'.index[r.id := OrderLoc(node, o)]), PushStore(OpenStore(st, node), node, o, r))
  }

  lemma {:induction false} OpenFlatOther(l: Layout, st: Store, k: nat, node: PriceNode, o: Order, r: OrderRec)
    requires OpenedThenJoined(l, st, k, node, o, r)
    ensures
      var l' := OpenLayout(l, k, node);
      FlatSide(l'.(index := l'.index[r.id := OrderLoc(node, o)]), PushStore(OpenStore(st, node), node, o, r),
               node.side.Opposite()) ==
      FlatSide(l, st, node.side.Opposite())
  {
    var other := node.side.Opposite();
    var l', st' := OpenLayout(l, k, node), OpenStore(st, node);
    SidesKept(l', l'.index[r.id := OrderLoc(node, o)], st', PushStore(st', node, o, r), node);
    OpenReadable(l, st, k, node);
    OpenOther(l.Prices(other), l.Nodes(other), st, node);
  }

  lemma {:induction false} OpenOwnFlat(l: Layout, st: Store, k: nat, node: PriceNode, r: OrderRec)
    requires Coherent(l, st) && NoneEmpty(st) && node !in st.queues && node.price !in l.Nodes(node.side)
    requires Splits(node.side, l.Prices(node.side), k, node.price) && r.price == node.price && r.side == node.side
    requires Coherent(OpenLayout(l, k, node), OpenStore(st, node))
    ensures
      var l' := OpenLayout(l, k, node);
      && Readable(l'.Prices(node.side), l'.Nodes(node.side), OpenStore(st, node))
      && Flat(l'.Prices(node.side), ViewOf(l'.Nodes(node.side), OpenStore(st, node))[node.price := [r]]) ==
         Insert(r, FlatSide(l, st, node.side))
  {
    OpenReadable(l, st, k, node);
    OpenOwn(l.Prices(node.side), l.Nodes(node.side), st, k, node, r);
  }

  /** On the flat lists, opening a level for an order is stable insertion too. */
  lemma {:induction false} OpenFlat(l: Layout, st: Store, k: nat, node: PriceNode, o: Order, r: OrderRec)
    requires OpenedThenJoined(l, st, k, node, o, r)
    ensures
      var l' := OpenLayout(l, k, node);
      FlatSide(l'.(index := l'.index[r.id := OrderLoc(node, o)]), PushStore(OpenStore(st, node), node, o, r),
               node.side) ==
      Insert(r, FlatSide(l, st, node.side))
  {
    var l', st' := OpenLayout(l, k, node), OpenStore(st, node);
    SidesKept(l', l'.index[r.id := OrderLoc(node, o)], st', PushStore(st', node, o, r), node);
    PushOwnLevel(l.index, st', node, o, r);
    assert LevelRecs(PushStore(st', node, o, r).queues[node], PushStore(st', node, o, r).recs) == [r];
    OpenOwnFlat(l, st, k, node, r);
  }

  // ----- Looking an order up -----

  lemma {:induction false} LookupMissing(l: Layout, st: Store, id: nat)
    requires Coherent(l, st) && id !in l.index
    ensures Find(id, FlatSide(l, st, Buy)) == None && Find(id, FlatSide(l, st, Sell)) == None
  {
    CoherentReadable(l, st, Buy);
    CoherentReadable(l, st, Sell);
    IdNowhere(l.bidPrices, l.bids, l.index, st, id, {});
    IdNowhere(l.askPrices, l.asks, l.index, st, id, {});
    FindNowhere(id, l.bidPrices, ViewOf(l.bids, st));
    FindNowhere(id, l.askPrices, ViewOf(l.asks, st));
  }

  lemma {:induction false} LookupInLevel(st: Store, node: PriceNode, o: Order)
    requires LevelsOk(st) && QueuedIn(st, node, o) && Known(st.queues[node], st.recs)
    ensures o in st.recs && Find(st.recs[o].id, LevelRecs(st.queues[node], st.recs)) == Some(st.recs[o])
  {
    var q := st.queues[node];
    assert LevelOk(node, q, st.sums[node], st.recs);
    LevelRecsIndex(q, st.recs);
    var k :| 0 <= k < |q| && q[k] == o;
    DeleteAt(LevelRecs(q, st.recs), k);
  }

  lemma {:induction false} LookupOwnSide(prices: seq<int>, nodes: map<int, PriceNode>, index: map<nat, OrderLoc>,
                                         st: Store, node: PriceNode, o: Order)
    requires Readable(prices, nodes, st) && LevelsOk(st) && IndexOk(index, st) && QueuedIn(st, node, o)
    requires node.price in prices && Known(st.queues[node], st.recs)
    requires forall p :: p in nodes ==> (p == node.price <==> nodes[p] == node)
    ensures Find(st.recs[o].id, FlatOf(prices, nodes, st)) == Some(st.recs[o])
  {
    assert Indexed(index, node, st.queues[node], st.recs);
    IdNowhere(prices, nodes, index, st, st.recs[o].id, {node.price});
    LookupInLevel(st, node, o);
    FindInLevel(st.recs[o].id, node.price, prices, ViewOf(nodes, st));
  }

  lemma {:induction false} LookupOtherSide(prices: seq<int>, nodes: map<int, PriceNode>, index: map<nat, OrderLoc>,
                                           st: Store, node: PriceNode, o: Order)
    requires Readable(prices, nodes, st) && IndexOk(index, st) && QueuedIn(st, node, o) && o in st.recs
    requires forall p :: p in nodes ==> nodes[p] != node
    ensures Find(st.recs[o].id, FlatOf(prices, nodes, st)) == None
  {
    assert Indexed(index, node, st.queues[node], st.recs);
    IdNowhere(prices, nodes, index, st, st.recs[o].id, {});
    FindNowhere(st.recs[o].id, prices, ViewOf(nodes, st));
  }

  lemma {:induction false} LookupPresent(l: Layout, st: Store, id: nat)
    requires Coherent(l, st) && id in l.index
    ensures
      var node, o := l.index[id].node, l.index[id].element;
      && QueuedIn(st, node, o) && o in st.recs && st.recs[o].id == id && st.recs[o].side == node.side
      && Find(id, FlatSide(l, st, node.side)) == Some(st.recs[o])
      && Find(id, FlatSide(l, st, node.side.Opposite())) == None
  {
    assert EntryOk(id, l.index[id], st.queues, st.recs);
    var node, o := l.index[id].node, l.index[id].element;
    var side, other := node.side, node.side.Opposite();
    FiledAt(l, st.queues.Keys, node);
    CoherentReadable(l, st, side);
    CoherentReadable(l, st, other);
    LookupOwnSide(l.Prices(side), l.Nodes(side), l.index, st, node, o);
    LookupOtherSide(l.Prices(other), l.Nodes(other), l.index, st, node, o);
    BelongsTo(st, node, o);
  }

  lemma {:induction false} BelongsTo(st: Store, node: PriceNode, o: Order)
    requires LevelsOk(st) && QueuedIn(st, node, o) && o in st.recs
    ensures st.recs[o].side == node.side && st.recs[o].price == node.price && st.recs[o].remaining > 0
  {
    var q := st.queues[node];
    assert LevelOk(node, q, st.sums[node], st.recs);
    LevelRecsIndex(q, st.recs);
    var k :| 0 <= k < |q| && q[k] == o;
    assert LevelRecs(q, st.recs)[k] == st.recs[o];
  }

  /** The cancel index answers exactly like a search of the two flat lists. */
  lemma {:induction false} IndexIsLookup(l: Layout, st: Store, id: nat)
    requires Coherent(l, st)
    ensures
      var found := FindInBook(id, Book(FlatSide(l, st, Buy), FlatSide(l, st, Sell)));
      && (id in l.index <==> found.Some?)
      && (id in l.index ==> l.index[id].element in st.recs && found.value == st.recs[l.index[id].element])
  {
    if id in l.index {
      LookupPresent(l, st, id);
    } else {
      LookupMissing(l, st, id);
    }
  }
}
