/**
 The engine object over whole runs, together with the callers that feed it: they draw orders and commands from the
 pools, fill them in and queue them, while the engine works through the queue and returns what it is done with.
 */
module EngineRuns {
  import opened Types
  import opened FlatBook
  import opened EngineSpec
  import opened BookLaws
  import opened BookStore
  import opened Engine

  // ----- Steps and runs, as far as the proofs below have to see them -----

  ghost predicate SameOn(side: Side, a: Outcome, b: Outcome) {
    && a.state.book.On(side) == b.state.book.On(side) && a.state.seqNo == b.state.seqNo
    && a.state.tradeSeq == b.state.tradeSeq && a.events == b.events
  }

  ghost predicate MakesOn(side: Side, s: State, c: CommandRec, out: Outcome) {
    SameOn(side, out, Step(s, c))
  }

  /** What the specification makes of a command; the trigger keeps the step folded in proofs that only pass it on. */
  ghost predicate Makes(s: State, c: CommandRec, out: Outcome) {
    forall side {:trigger MakesOn(side, s, c, out)} :: MakesOn(side, s, c, out)
  }

  lemma {:induction false} MakesStep(s: State, c: CommandRec, out: Outcome)
    requires Makes(s, c, out)
    ensures out == Step(s, c)
  {
    assert MakesOn(Buy, s, c, out) && MakesOn(Sell, s, c, out);
  }

  ghost predicate LeadsOn(side: Side, cs: seq<CommandRec>, out: Outcome) {
    SameOn(side, out, Run(cs))
  }

  /** What the specification makes of a whole list of commands, folded in the same way. */
  ghost predicate Leads(cs: seq<CommandRec>, out: Outcome) {
    forall side {:trigger LeadsOn(side, cs, out)} :: LeadsOn(side, cs, out)
  }

  lemma {:induction false} LeadsRun(cs: seq<CommandRec>, out: Outcome)
    requires Leads(cs, out)
    ensures out == Run(cs)
  {
    assert LeadsOn(Buy, cs, out) && LeadsOn(Sell, cs, out);
  }

  /** The order ids of a valid run are new to the book when their turn comes. */
  lemma {:induction false} NextIsFresh(cs: seq<CommandRec>, i: nat, done: Outcome)
    requires ValidRun(cs) && i < |cs| && Leads(cs[..i], done)
    ensures ValidCommand(cs[i])
    ensures cs[i].NewOrder? ==> FindInBook(cs[i].order.id, done.state.book) == None
  {
    RunKeepsBook(cs[..i]);
    LeadsRun(cs[..i], done);
    if cs[i].NewOrder? {
      var id := cs[i].order.id;
      assert id !in SubmittedIds(cs[..i]);
      FindIffPresent(id, done.state.book.bids);
      FindIffPresent(id, done.state.book.asks);
    }
  }

  /** The next command of a run, and what it makes of the run so far. */
  lemma {:induction false} RunOnce(cs: seq<CommandRec>, c: CommandRec, whole: seq<CommandRec>, done: Outcome)
    returns (out: Outcome, next: Outcome)
    requires whole == cs + [c] && Leads(cs, done)
    ensures Makes(done.state, c, out) && Leads(whole, next)
    ensures next == Outcome(out.state, done.events + out.events)
  {
    LeadsRun(cs, done);
    out := Step(done.state, c);
    next := Run(whole);
    assert whole[..|whole| - 1] == cs;
  }

  // ----- Commands in flight -----

  /** A command on its way, with the time at which the engine will take it up. */
  datatype Flight = Flight(cmd: Command, now: int)

  /** The command object asks for `c`, and holds an order object exactly if that is a new order. */
  ghost predicate Carries(f: Flight, c: CommandRec)
    reads f.cmd, Engine.Brings(f.cmd)
  {
    && Engine.Recorded(f.cmd, f.now) == c
    && (f.cmd.typ == CMD_NEW_ORDER ==> f.cmd.order != null)
  }

  ghost predicate Inside(f: Flight, carriers: set<Command>, carried: set<Order>)
    reads carriers
  {
    f.cmd in carriers && Engine.Brings(f.cmd) <= carried
  }

  /** The `k`-th command in flight asks for the `k`-th command due, and shares no object with those before it. */
  ghost predicate Flying(k: nat, queue: seq<Flight>, due: seq<CommandRec>, carriers: set<Command>, carried: set<Order>)
    reads carriers, carried
  {
    && k < |queue| == |due|
    && (forall j :: 0 <= j <= k ==> Inside(queue[j], carriers, carried))
    && Carries(queue[k], due[k])
    && (forall j :: 0 <= j < k ==>
          queue[j].cmd != queue[k].cmd && Engine.Brings(queue[j].cmd) !! Engine.Brings(queue[k].cmd))
  }

  /** The order is on a queued command. */
  ghost predicate OnBoard(o: Order, queue: seq<Flight>)
    reads set f | f in queue :: f.cmd
  {
    exists f :: f in queue && o in Engine.Brings(f.cmd)
  }

  ghost predicate Queued(c: Command, queue: seq<Flight>) {
    exists f :: f in queue && f.cmd == c
  }

  /** All commands in flight are as they should be, and nothing is carried but what they bring. */
  ghost predicate AllFlying(queue: seq<Flight>, due: seq<CommandRec>, carriers: set<Command>, carried: set<Order>)
    reads carriers, carried
  {
    && |queue| == |due|
    && (forall k: nat {:trigger Flying(k, queue, due, carriers, carried)} ::
          k < |queue| ==> Flying(k, queue, due, carriers, carried))
    && (forall c {:trigger Queued(c, queue)} :: c in carriers ==> Queued(c, queue))
    && (forall f :: f in queue ==> f.cmd in carriers)
    && (forall o {:trigger OnBoard(o, queue)} :: o in carried ==> OnBoard(o, queue))
  }

  /** The first command lands: the others fly on without its objects. */
  lemma {:induction false} FirstLands(queue: seq<Flight>, due: seq<CommandRec>,
                                      carriers: set<Command>, carried: set<Order>)
    requires queue != [] && AllFlying(queue, due, carriers, carried)
    ensures Inside(queue[0], carriers, carried) && Carries(queue[0], due[0])
    ensures AllFlying(queue[1..], due[1..], carriers - {queue[0].cmd}, carried - Engine.Brings(queue[0].cmd))
  {
    assert Flying(0, queue, due, carriers, carried);
    var carriers', carried' := carriers - {queue[0].cmd}, carried - Engine.Brings(queue[0].cmd);
    forall k: nat | k < |queue| - 1
      ensures Flying(k, queue[1..], due[1..], carriers', carried')
    {
      assert Flying(k + 1, queue, due, carriers, carried);
      forall j | 0 <= j <= k
        ensures Inside(queue[1..][j], carriers', carried')
      {
        assert Flying(j + 1, queue, due, carriers, carried);
      }
    }
    StillCarried(queue, due, carriers, carried);
  }

  lemma {:induction false} StillCarried(queue: seq<Flight>, due: seq<CommandRec>,
                                        carriers: set<Command>, carried: set<Order>)
    requires queue != [] && AllFlying(queue, due, carriers, carried)
    ensures forall f :: f in queue[1..] ==> f.cmd in carriers - {queue[0].cmd}
    ensures forall c :: c in carriers - {queue[0].cmd} ==> Queued(c, queue[1..])
    ensures forall o :: o in carried - Engine.Brings(queue[0].cmd) ==> OnBoard(o, queue[1..])
  {
    var f0 := queue[0];
    forall f | f in queue[1..]
      ensures f.cmd in carriers - {f0.cmd}
    {
      var k: nat :| 0 < k < |queue| && queue[k] == f;
      assert Flying(k, queue, due, carriers, carried);
    }
    forall c | c in carriers - {f0.cmd}
      ensures Queued(c, queue[1..])
    {
      assert Queued(c, queue);
      var f :| f in queue && f.cmd == c;
      assert f in queue[1..];
    }
    forall o | o in carried - Engine.Brings(f0.cmd)
      ensures OnBoard(o, queue[1..])
    {
      assert OnBoard(o, queue);
      var f :| f in queue && o in Engine.Brings(f.cmd);
      assert f in queue[1..];
    }
  }

  /** One more command takes off, with objects of its own. */
  lemma {:induction false} OneMoreFlies(queue: seq<Flight>, due: seq<CommandRec>,
                                        carriers: set<Command>, carried: set<Order>, f: Flight, c: CommandRec)
    requires AllFlying(queue, due, carriers, carried) && Carries(f, c)
    requires f.cmd !in carriers && Engine.Brings(f.cmd) !! carried
    ensures AllFlying(queue + [f], due + [c], carriers + {f.cmd}, carried + Engine.Brings(f.cmd))
  {
    var queue', due' := queue + [f], due + [c];
    var carriers', carried' := carriers + {f.cmd}, carried + Engine.Brings(f.cmd);
    forall j | 0 <= j < |queue|
      ensures Inside(queue[j], carriers, carried)
    {
      assert Flying(j, queue, due, carriers, carried);
    }
    forall k: nat | k < |queue'|
      ensures Flying(k, queue', due', carriers', carried')
    {
      if k < |queue| {
        assert Flying(k, queue, due, carriers, carried);
      }
    }
    forall x | x in carriers'
      ensures Queued(x, queue')
    {
      assert f in queue';
      if x != f.cmd {
        assert Queued(x, queue);
        var g :| g in queue && g.cmd == x;
        assert g in queue';
      }
    }
    forall o | o in carried'
      ensures OnBoard(o, queue')
    {
      assert f in queue';
      if o in carried {
        assert OnBoard(o, queue);
        var g :| g in queue && o in Engine.Brings(g.cmd);
        assert g in queue';
      }
    }
  }

  /** The order objects on queued commands. */
  ghost function Aboard(queue: seq<Flight>): set<Order>
    reads set f | f in queue :: f.cmd
  {
    set f, o | f in queue && o in Engine.Brings(f.cmd) :: o
  }

  /** So what callers hold is determined by the queue. */
  lemma {:induction false} CarriedIsAboard(queue: seq<Flight>, due: seq<CommandRec>,
                                           carriers: set<Command>, carried: set<Order>)
    requires AllFlying(queue, due, carriers, carried)
    ensures carriers == (set f | f in queue :: f.cmd) && carried == Aboard(queue)
  {
    forall c | c in carriers
      ensures c in set f | f in queue :: f.cmd
    {
      assert Queued(c, queue);
    }
    forall o | o in carried
      ensures o in Aboard(queue)
    {
      assert OnBoard(o, queue);
    }
    forall o | o in Aboard(queue)
      ensures o in carried
    {
      var f :| f in queue && o in Engine.Brings(f.cmd);
      var k: nat :| k < |queue| && queue[k] == f;
      assert Flying(k, queue, due, carriers, carried);
    }
  }

  // ----- Who holds what -----

  /** The three places hold `all` between them, and nothing twice. */
  ghost predicate Parted<T>(all: set<T>, book: set<T>, pool: set<T>, callers: set<T>) {
    all == book + pool + callers && book !! pool !! callers
  }

  lemma DrawnFrom<T>(all: set<T>, book: set<T>, pool: set<T>, callers: set<T>, mine: set<T>)
    requires Parted(all, book, pool, callers) && mine !! book && mine !! callers
    ensures Parted(all + mine, book, pool - mine, callers + mine)
  {
  }

  lemma PassedOn<T>(all: set<T>, book: set<T>, pool: set<T>, callers: set<T>, mine: set<T>,
                    book': set<T>, pool': set<T>)
    requires Parted(all, book, pool, callers) && mine <= callers
    requires book' + pool' == book + pool + mine && book' !! pool'
    ensures Parted(all, book', pool', callers - mine)
  {
  }

  // ----- Callers and engine -----

  /** What happens next: a caller submits a command, or the engine takes one up. */
  datatype Action = Submit(c: CommandRec) | Serve

  class Venue {
    const engine: Engine
    var queue: seq<Flight>

    // Every command submitted so far, and how many of them the engine has served.
    ghost var submitted: seq<CommandRec>
    ghost var served: nat

    // What the specification makes of the first so many commands.
    ghost var history: seq<Outcome>

    // The order and command objects in flight, and all that were ever drawn.
    ghost var carried: set<Order>
    ghost var carriers: set<Command>
    ghost var orders: set<Order>
    ghost var commands: set<Command>
    ghost var repr: set<object>

    constructor ()
      ensures Valid() && submitted == [] && served == 0 && Covered() && fresh(repr)
    {
      engine := new Engine();
      queue, submitted, served := [], [], 0;
      history := [Run([])];
      carried, carriers, orders, commands := {}, {}, {}, {};
      new;
      repr := {this, engine} + Parts();
      assert submitted[..0] == [] && RightAt(0);
    }

    /** The engine's own objects. */
    ghost function Parts(): set<object> {
      {engine.book, engine.outbound, engine.orderPool, engine.commandPool}
    }

    /**
     Every order object ever drawn is in exactly one place: resting in the book, in the pool, or with a caller,
     on a command in flight. Likewise for command objects.
     */
    ghost predicate Partitioned()
      reads this, engine.book, engine.orderPool, engine.commandPool
    {
      && Parted(orders, engine.book.resting, engine.orderPool.free, carried)
      && Parted(commands, {}, engine.commandPool.free, carriers)
    }

    /** The history is right about the first `i` commands. */
    ghost predicate RightAt(i: nat)
      reads `submitted, `history
    {
      i < |history| && i <= |submitted| && Leads(submitted[..i], history[i])
    }

    ghost predicate OnRecord()
      reads `submitted, `served, `history
    {
      && ValidRun(submitted) && served <= |submitted| && |history| == served + 1
      && (forall i: nat {:trigger RightAt(i)} :: i <= served ==> RightAt(i))
    }

    /** The engine is where the specification says, and has written what it says. */
    ghost predicate InStep()
      reads `history, engine, engine.book, engine.outbound
    {
      && history != []
      && engine.Now() == history[|history| - 1].state
      && engine.outbound.events == history[|history| - 1].events
    }

    ghost predicate Valid()
      reads this, orders, commands, engine, engine.book, engine.book.levels
      reads engine.outbound, engine.orderPool, engine.commandPool
    {
      && Partitioned() && InStep() && OnRecord() && engine.Valid()
      && AllFlying(queue, submitted[served..], carriers, carried)
    }

    lemma Reached()
      requires Valid()
      ensures engine.Now() == Run(submitted[..served]).state
      ensures engine.outbound.events == Run(submitted[..served]).events
    {
      assert RightAt(served);
      LeadsRun(submitted[..served], history[served]);
    }

    /** What callers hold is what is queued; with everything served, book and pools have every object ever drawn. */
    lemma Accounted()
      requires Valid()
      ensures carried == Aboard(queue) && carriers == (set f | f in queue :: f.cmd)
      ensures served == |submitted| <==> queue == []
      ensures queue == [] ==> orders == engine.book.resting + engine.orderPool.free
      ensures queue == [] ==> commands == engine.commandPool.free
    {
      CarriedIsAboard(queue, submitted[served..], carriers, carried);
    }

    /** Draw an order from the pool and fill it in; what it is not given stays zero. */
    method DrawOrder(r: OrderRec) returns (o: Order)
      requires engine.orderPool.Valid()
      modifies engine.orderPool, engine.orderPool.free
      ensures engine.orderPool.Valid() && o.Rec() == r
      ensures o in old(engine.orderPool.free) || fresh(o)
      ensures engine.orderPool.free == old(engine.orderPool.free) - {o}
    {
      o := engine.orderPool.Get();
      FillIn(o, r);
    }

    method FillIn(o: Order, r: OrderRec)
      requires BlankOrder(o)
      modifies o
      ensures o.Rec() == r
    {
      o.id, o.user, o.side, o.typ, o.price := r.id, r.user, r.side, r.typ, r.price;
      o.quantity, o.remaining := r.quantity, r.remaining;
      if r.status != 0 {
        o.status := r.status;
      }
      if r.timestamp != 0 {
        o.timestamp := r.timestamp;
      }
    }

    /** Draw a command from the pool and fill it in. */
    method DrawCommand(c: CommandRec, order: Order?) returns (f: Flight)
      requires engine.commandPool.Valid() && (order != null <==> c.NewOrder?)
      requires order != null ==> order.Rec() == c.order
      modifies engine.commandPool, engine.commandPool.free
      ensures engine.commandPool.Valid() && Carries(f, c)
      ensures Engine.Brings(f.cmd) == if order != null then {order} else {}
      ensures f.cmd in old(engine.commandPool.free) || fresh(f.cmd)
      ensures engine.commandPool.free == old(engine.commandPool.free) - {f.cmd}
    {
      var cmd := engine.commandPool.Get();
      match c
      case NewOrder(_, now) =>
        cmd.typ, cmd.order := CMD_NEW_ORDER, order;
        f := Flight(cmd, now);
      case CancelOrder(id, user) =>
        cmd.typ, cmd.cancelId, cmd.userId := CMD_CANCEL_ORDER, id, user;
        f := Flight(cmd, 0);
      case OtherCommand =>
        f := Flight(cmd, 0);
    }

    /** Draw what a command needs. */
    method Draw(c: CommandRec) returns (f: Flight)
      requires engine.Valid()
      modifies engine.orderPool, engine.orderPool.free, engine.commandPool, engine.commandPool.free
      ensures engine.Valid() && Carries(f, c)
      ensures forall o :: o in Engine.Brings(f.cmd) ==> o in old(engine.orderPool.free) || fresh(o)
      ensures engine.orderPool.free == old(engine.orderPool.free) - Engine.Brings(f.cmd)
      ensures f.cmd in old(engine.commandPool.free) || fresh(f.cmd)
      ensures engine.commandPool.free == old(engine.commandPool.free) - {f.cmd}
    {
      var order: Order? := null;
      if c.NewOrder? {
        order := DrawOrder(c.order);
      }
      f := DrawCommand(c, order);
    }

    /** Submit a command: its objects pass from the pools to the caller and fly with it. */
    method Submit(c: CommandRec)
      requires Valid() && ValidRun(submitted + [c])
      modifies `queue, `submitted, `carried, `carriers, `orders, `commands
      modifies engine.orderPool, engine.orderPool.free, engine.commandPool, engine.commandPool.free
      ensures Valid() && submitted == old(submitted) + [c] && served == old(served)
      ensures |queue| == |old(queue)| + 1 && queue[..|old(queue)|] == old(queue)
      ensures old(orders) <= orders && fresh(orders - old(orders))
      ensures old(commands) <= commands && fresh(commands - old(commands))
    {
      ghost var due := submitted[served..];
      var f := DrawApart(c);
      ghost var mine := Engine.Brings(f.cmd);
      OneMoreFlies(queue, due, carriers, carried, f, c);
      TakeOff(f, c, due, mine);
    }

    /** What has been drawn is in no one else's hands. */
    method DrawApart(c: CommandRec) returns (f: Flight)
      requires engine.Valid() && Partitioned()
      modifies engine.orderPool, engine.orderPool.free, engine.commandPool, engine.commandPool.free
      ensures engine.Valid() && Carries(f, c)
      ensures f.cmd !in carriers && (f.cmd in commands || fresh(f.cmd))
      ensures Engine.Brings(f.cmd) !! carried && forall o :: o in Engine.Brings(f.cmd) ==> o in orders || fresh(o)
      ensures
        var mine := Engine.Brings(f.cmd);
        && Parted(orders + mine, engine.book.resting, engine.orderPool.free, carried + mine)
        && Parted(commands + {f.cmd}, {}, engine.commandPool.free, carriers + {f.cmd})
    {
      ghost var pool, cmds := engine.orderPool.free, engine.commandPool.free;
      f := Draw(c);
      DrawnFrom(orders, engine.book.resting, pool, carried, Engine.Brings(f.cmd));
      DrawnFrom(commands, {}, cmds, carriers, {f.cmd});
    }

    method TakeOff(f: Flight, c: CommandRec, ghost due: seq<CommandRec>, ghost mine: set<Order>)
      requires OnRecord() && due == submitted[served..] && ValidRun(submitted + [c])
      requires AllFlying(queue + [f], due + [c], carriers + {f.cmd}, carried + mine)
      modifies `queue, `submitted, `carried, `carriers, `orders, `commands
      ensures OnRecord() && submitted == old(submitted) + [c] && queue == old(queue) + [f]
      ensures AllFlying(queue, submitted[served..], carriers, carried)
      ensures carried == old(carried) + mine && orders == old(orders) + mine
      ensures carriers == old(carriers) + {f.cmd} && commands == old(commands) + {f.cmd}
    {
      Board(f, mine);
      Announce(c);
    }

    method Board(f: Flight, ghost mine: set<Order>)
      modifies `queue, `carried, `carriers, `orders, `commands
      ensures queue == old(queue) + [f] && carried == old(carried) + mine && carriers == old(carriers) + {f.cmd}
      ensures orders == old(orders) + mine && commands == old(commands) + {f.cmd}
    {
      queue := queue + [f];
      carried, orders := carried + mine, orders + mine;
      carriers, commands := carriers + {f.cmd}, commands + {f.cmd};
    }

    ghost method Announce(c: CommandRec)
      requires OnRecord() && ValidRun(submitted + [c])
      modifies `submitted
      ensures OnRecord() && submitted == old(submitted) + [c] && submitted[served..] == old(submitted[served..]) + [c]
    {
      submitted := submitted + [c];
      forall i: nat | i <= served
        ensures RightAt(i)
      {
        assert old(RightAt(i)) && submitted[..i] == old(submitted[..i]);
      }
    }

    /** The engine takes up the next command, if there is one. */
    method Serve()
      requires Valid()
      modifies `queue, `served, `history, `carried, `carriers
      modifies engine, engine.book, engine.outbound, engine.orderPool, engine.commandPool
      modifies engine.book.levels`quantity, engine.book.levels`orders, orders, commands
      ensures Valid() && submitted == old(submitted) && orders == old(orders) && commands == old(commands)
      ensures served == old(served) + if old(served) < |submitted| then 1 else 0
      ensures queue == if old(queue) == [] then [] else old(queue)[1..]
      ensures fresh(engine.book.levels - old(engine.book.levels))
    {
      if |queue| > 0 {
        var f := queue[0];
        ghost var due, mine := submitted[served..], Engine.Brings(f.cmd);
        FirstLands(queue, due, carriers, carried);
        TakeUp(f, due[0], mine);
        Land(f, due, mine);
      }
    }

    /** The engine's part of it, and where the command's objects go. */
    method TakeUp(f: Flight, ghost c: CommandRec, ghost mine: set<Order>)
      requires Partitioned() && InStep() && OnRecord() && engine.Valid()
      requires Inside(f, carriers, carried) && Carries(f, c) && mine == Engine.Brings(f.cmd)
      requires served < |submitted| && c == submitted[served]
      modifies engine, engine.book, engine.outbound, engine.orderPool, engine.commandPool, `served, `history
      modifies engine.book.levels`quantity, engine.book.levels`orders, engine.book.resting, f.cmd, mine
      ensures InStep() && OnRecord() && engine.Valid() && served == old(served) + 1
      ensures fresh(engine.book.levels - old(engine.book.levels))
      ensures Parted(orders, engine.book.resting, engine.orderPool.free, carried - mine)
      ensures Parted(commands, {}, engine.commandPool.free, carriers - {f.cmd})
    {
      ghost var out := Record(c);
      Work(f, c, mine, out);
    }

    /** Note what the specification makes of the next command. */
    ghost method Record(c: CommandRec) returns (out: Outcome)
      requires OnRecord() && served < |submitted| && c == submitted[served]
      modifies `served, `history
      ensures OnRecord() && served == old(served) + 1 && |history| == |old(history)| + 1
      ensures
        var before, after := old(history)[|old(history)| - 1], history[|history| - 1];
        && Makes(before.state, c, out) && after == Outcome(out.state, before.events + out.events)
        && ValidCommand(c) && (c.NewOrder? ==> FindInBook(c.order.id, before.state.book) == None)
    {
      assert RightAt(served);
      ghost var so, whole, done := submitted[..served], submitted[..served + 1], history[served];
      NextIsFresh(submitted, served, done);
      assert whole == so + [c];
      var next;
      out, next := RunOnce(so, c, whole, done);
      Note(next);
    }

    ghost method Note(next: Outcome)
      requires OnRecord() && served < |submitted| && Leads(submitted[..served + 1], next)
      modifies `served, `history
      ensures OnRecord() && served == old(served) + 1 && history == old(history) + [next]
    {
      history, served := history + [next], served + 1;
      forall i: nat | i <= served
        ensures RightAt(i)
      {
        if i < served {
          assert old(RightAt(i));
        }
      }
    }

    method Work(f: Flight, ghost c: CommandRec, ghost mine: set<Order>, ghost out: Outcome)
      requires Partitioned() && engine.Valid() && Inside(f, carriers, carried) && Carries(f, c)
      requires ValidCommand(c) && (c.NewOrder? ==> FindInBook(c.order.id, engine.book.flat) == None)
      requires Makes(engine.Now(), c, out) && mine == Engine.Brings(f.cmd)
      modifies engine, engine.book, engine.outbound, engine.orderPool, engine.commandPool
      modifies engine.book.levels`quantity, engine.book.levels`orders, engine.book.resting, f.cmd, mine
      ensures engine.Valid() && fresh(engine.book.levels - old(engine.book.levels))
      ensures engine.Now() == out.state && engine.outbound.events == old(engine.outbound.events) + out.events
      ensures Parted(orders, engine.book.resting, engine.orderPool.free, carried - mine)
      ensures Parted(commands, {}, engine.commandPool.free, carriers - {f.cmd})
    {
      ghost var resting, pool, cmds := engine.book.resting, engine.orderPool.free, engine.commandPool.free;
      if f.cmd.typ == CMD_NEW_ORDER {
        engine.book.LookupMissing(f.cmd.order.id);
      }
      MakesStep(engine.Now(), c, out);
      engine.Process(f.cmd, f.now, c, out, mine);
      PassedOn(orders, resting, pool, carried, mine, engine.book.resting, engine.orderPool.free);
      PassedOn(commands, {}, cmds, carriers, {f.cmd}, {}, engine.commandPool.free);
    }

    method Land(f: Flight, ghost due: seq<CommandRec>, ghost mine: set<Order>)
      requires OnRecord() && queue != [] && served > 0 && due == submitted[served - 1..]
      requires AllFlying(queue[1..], due[1..], carriers - {f.cmd}, carried - mine)
      modifies `queue, `carried, `carriers
      ensures AllFlying(queue, submitted[served..], carriers, carried) && queue == old(queue)[1..]
      ensures carried == old(carried) - mine && carriers == old(carriers) - {f.cmd}
    {
      assert due[1..] == submitted[served..];
      queue, carried, carriers := queue[1..], carried - mine, carriers - {f.cmd};
    }

    /** `repr` has everything that may change. */
    ghost predicate Covered()
      reads this, engine.book
    {
      && this in repr && engine in repr && Parts() <= repr
      && (forall o :: o in orders ==> o in repr)
      && (forall c :: c in commands ==> c in repr)
      && (forall n :: n in engine.book.levels ==> n in repr)
    }

    method Act(a: Action)
      requires Valid() && Covered() && (a.Submit? ==> ValidRun(submitted + [a.c]))
      modifies repr
      ensures Valid() && Covered() && fresh(repr - old(repr))
      ensures submitted == old(submitted) + if a.Submit? then [a.c] else []
      ensures served == old(served) + if a.Serve? && old(served) < |old(submitted)| then 1 else 0
    {
      match a {
        case Submit(c) => Submit(c);
        case Serve => Serve();
      }
      Cover();
    }

    ghost method Cover()
      requires Valid() && this in repr && engine in repr && Parts() <= repr
      modifies `repr
      ensures Valid() && Covered()
      ensures forall x :: x in repr - old(repr) ==> x in orders || x in commands || x in engine.book.levels
    {
      repr := repr + (set o | o in orders) + (set c | c in commands) + (set n | n in engine.book.levels);
    }
  }

  // ----- Whole runs -----

  /** The commands a script submits, in order. */
  function Submissions(script: seq<Action>): seq<CommandRec> {
    if script == [] then []
    else
      var last := script[|script| - 1];
      Submissions(script[..|script| - 1]) + if last.Submit? then [last.c] else []
  }

  /** How many of them it serves; with nothing in flight, the engine idles. */
  function Served(script: seq<Action>): (n: nat)
    ensures n <= |Submissions(script)|
  {
    if script == [] then 0
    else
      var before, last := script[..|script| - 1], script[|script| - 1];
      Served(before) + if last.Serve? && Served(before) < |Submissions(before)| then 1 else 0
  }

  lemma {:induction false} ScriptOnward(script: seq<Action>, i: nat)
    requires i < |script|
    ensures Submissions(script[..i + 1]) == Submissions(script[..i]) + if script[i].Submit? then [script[i].c] else []
    ensures
      Served(script[..i + 1]) ==
      Served(script[..i]) + if script[i].Serve? && Served(script[..i]) < |Submissions(script[..i])| then 1 else 0
  {
    assert script[..i + 1][..i] == script[..i];
  }

  lemma {:induction false} SubmissionsGrow(script: seq<Action>, i: nat)
    requires i <= |script|
    ensures Submissions(script[..i]) <= Submissions(script)
    decreases |script| - i
  {
    if i < |script| {
      ScriptOnward(script, i);
      SubmissionsGrow(script, i + 1);
    } else {
      assert script[..i] == script;
    }
  }

  /** One more action: what it submits and serves, and that its command is a valid one. */
  lemma {:induction false} NextAction(script: seq<Action>, i: nat, cs: seq<CommandRec>, n: nat)
    requires i < |script| && ValidRun(Submissions(script))
    requires cs == Submissions(script[..i]) && n == Served(script[..i])
    ensures script[i].Submit? ==> ValidRun(cs + [script[i].c])
    ensures Submissions(script[..i + 1]) == cs + if script[i].Submit? then [script[i].c] else []
    ensures Served(script[..i + 1]) == n + if script[i].Serve? && n < |cs| then 1 else 0
  {
    ScriptOnward(script, i);
    SubmissionsGrow(script, i + 1);
  }

  /** A new engine and its callers act out a script. */
  method Play(script: seq<Action>) returns (v: Venue)
    requires ValidRun(Submissions(script))
    ensures v.Valid() && v.submitted == Submissions(script) && v.served == Served(script)
  {
    v := new Venue();
    for i := 0 to |script|
      invariant v.Valid() && v.Covered() && fresh(v.repr)
      invariant v.submitted == Submissions(script[..i]) && v.served == Served(script[..i])
    {
      NextAction(script, i, v.submitted, v.served);
      v.Act(script[i]);
    }
    assert script[..|script|] == script;
  }

  /**
   Callers and a new engine, in any interleaving: the engine reaches the state and has written the events the
   specification says for the commands it has served, in submission order; and every order object drawn is either
   resting, or in the pool, or on a queued command, never in two of these places, however often it has been recycled.
   With all commands served, book and pool have them all.
   */
  method RunScript(script: seq<Action>) returns (v: Venue)
    requires ValidRun(Submissions(script))
    ensures v.Valid() && v.submitted == Submissions(script) && v.served == Served(script)
    ensures
      var out := Run(Submissions(script)[..Served(script)]);
      v.engine.Now() == out.state && v.engine.outbound.events == out.events
    ensures Parted(v.orders, v.engine.book.resting, v.engine.orderPool.free, Aboard(v.queue))
    ensures |v.queue| == |v.submitted| - v.served
    ensures v.queue == [] ==> v.orders == v.engine.book.resting + v.engine.orderPool.free
  {
    v := Play(script);
    v.Reached();
    v.Accounted();
  }
}
