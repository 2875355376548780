# oktrading: a verified model of the matching engine and its rings

The program is a single-symbol exchange core. Many submitters put commands into a lock-free command ring; one engine
goroutine takes them in claim order, drives a price-time order book in place, and writes fixed-size event records into
a lock-free event ring; one consumer reads them. This project models those parts and proves what they promise.

`dafny verify dfyconfig.toml` checks everything.

## How it is put together

Values first. `Types.dfy` holds orders, fills, commands and event records. `FlatBook.dfy` describes one side of the
book as a flat list in price-time order with three operations: a taker sweeps it from the front, an order joins it, an
order leaves it by id. `EngineSpec.dfy` is the engine as a deterministic machine over two such lists. On that machine:

* `BookLaws.dfy`: the book stays sorted, live, free of duplicate ids and uncrossed over every run;
* `OrderLaws.dfy`: what each order type gets, including where the code does less than its type promises;
* `EventSourcing.dfy`: the event stream alone rebuilds the book, all but its users;
* `Grammar.dfy`: gapless numbering, one lifecycle record per command, trade ids 1, 2, 3, ...;
* `Conservation.dfy`: quantity is conserved per side and per order;
* `Answers.dfy`: every command's records and what it does to the book, told field by field in plain prices, quantities
  and wire codes, proved to be exactly what the machine does; `Depth.dfy` tells in the same terms what a look at the
  best prices sees;
* `Fairness.dfy`: what submitters can rely on over whole runs: limits, maker prices, statuses, price-time priority;
* `Origins.dfy`: every resting order is a submitted one, changed only by trading;
* `Blindness.dfy`: the engine reads no user, and of times only whether an order has one;
* `Users.dfy`, `Replica.dfy`: what follows for cancels, and for a replica that works through the same commands later.

Then the program's own form. `BookStore.dfy` declares the order and price-level objects and a picture of them as
values; `BookEdits.dfy`, `PriceLevels.dfy` and `BookPicture.dfy` prove what each edit does to levels, index and flat
lists; `OrderBook.dfy` is the class with price lists, maps, queues, cached quantities and cancel index, edited in
place, each operation proved to be the flat one. `Engine.dfy` is the class that numbers commands, emits events and
recycles objects, proved to take exactly the steps of `EngineSpec.dfy`; `EngineRuns.dfy` runs it together with callers
that draw orders and commands from the pools, submit them, and get them recycled.

Concurrency is modelled by small-step machines, one step per atomic operation and per plain field access, any schedule
being a run: `MpscRing.dfy` (command ring, any number of producers), `SpscRing.dfy` (event ring and pointer ring, with
slots written and copied cell by cell), `EventRecord.dfy` (the writes of the three push operations) and
`Pipeline.dfy` (all of it together); `Drain.dfy` shows that nothing need stay behind in it. `Bits.dfy` proves the masks,
shifts and capacity roundings; `Histogram.dfy` and `HistogramRace.dfy` the latency histogram, alone and with recordings
racing each other.

## What callers have to provide

Order ids are never reused (pkg/gateway/gateway.go:80), a new order has its whole quantity still to fill, and orders
that can rest have a positive price (pkg/gateway/gateway.go:117-138 checks quantity and price; that `Remaining` equals
`Quantity` is a convention of the callers). The engine class itself needs only an unused id and something to fill.

## Where the code does less than one might expect

* pkg/types/types.go:31-32 and pkg/engine/engine.go:315-317 speak of filling "what crosses"; the matching loop bounds
  only LIMIT takers, and the limit tests in the FOK pre-check cannot fire for a FOK.
  `OrderLaws.UnboundedTakerKeepsItsPriceIff` gives the exact condition under which an IOC or FOK order keeps its price
  anyway (a MARKET order has none to keep),
  `OrderLaws.IocTradesThroughItsLimit` a run in which an order does not.
* pkg/engine/engine.go:319 calls a 4096-level snapshot a deep scan; `OrderLaws.FokCheckIsExactIff` shows the pre-check
  is right for every order exactly when the opposite side has no more levels than that, and
  `OrderLaws.DeepBookRefusesFok` runs of any length beyond it that end with the refusal of a fillable order.
* pkg/engine/engine.go:48-50 promises that the same commands reproduce the exact same book state. The engine stamps
  orders that come without a time, so replicas agree on everything but times (`Replica.ReplicaButTimes`). Whenever they
  take the commands up, their books agree exactly if every order resting in the end was submitted with a time
  (`Replica.BookIsExactIff`), books and records if every order was (`Replica.ReplicaIsExactIff`).
* pkg/mpsc/ring.go:93 and :130 say that a refusal means full and nil means empty; `MpscRing.RefusedIff` and
  `MpscRing.NilIff` say exactly what they mean, `MpscRing.StaleRefusal` is a refusal by an empty ring and
  `MpscRing.NilWithClaimOutstanding` a nil with a command outstanding.
* The capacity roundings promise the smallest power of two not below the request; `Bits.RoundUpIsLeastIff` shows that
  this holds exactly up to 2^62.
* pkg/types/types.go:115 says a command's UserID is used for cancel authorisation. The engine is blind to users
  (`Users.UsersDoNotMatter`), so a cancel goes through whoever sends it (`Users.StrangerCancels`), and it is the owner's
  exactly if it bears the user that submitted the id (`Users.CancelIsOwnersIff`).
* pkg/offheap/ring.go:260 promises 31 bytes of a reason, and that is what a consumer gets: reasons survive exactly up to
  that length (`EventRecord.ReasonSurvivesIff`), which two of the engine's four exceed
  (`EventRecord.CancelReasonIsClipped`, `EventRecord.PostOnlyReasonIsClipped`).
* cmd/stress/histogram.go:65 gives percentiles a relative error of 50%. That holds for samples counted as at least one
  nanosecond; for the samples as they were it holds exactly for positive ones (`Histogram.TrueSampleWithinHalfIff`).

## Model

| member | source | states |
|---|---|---|
| FlatBook.SweepIsGreedy | pkg/orderbook/orderbook.go:109-188 | a sweep takes makers in list order, each at most once, all but the last completely, positive quantities adding up to what the taker lost, and stops only when the taker is filled or reaches nothing more |
| FlatBook.GreedyIsSweep | pkg/orderbook/orderbook.go:109-188 | conversely, nothing else satisfies that description, so it determines fills, rest and remainder |
| FlatBook.SweepQuantity | pkg/orderbook/orderbook.go:114-141 | the quantity traded is what the taker wants capped by everything it reaches |
| FlatBook.SweepFilledQty | pkg/orderbook/orderbook.go:174-176 | what the taker lost, what the makers lost and what was filled are the same amount |
| FlatBook.InsertIsStable | pkg/orderbook/orderbook.go:190-218 | a resting order goes behind every order priced at least as well and before all worse ones; nothing else moves |
| FlatBook.DeleteAt | pkg/orderbook/orderbook.go:220-246 | with distinct ids, cancelling takes out exactly the one position holding the id |
| FlatBook.FindIffPresent | pkg/orderbook/orderbook.go:94-98 | a lookup succeeds exactly on the ids present and finds an order bearing the id |
| BookLaws.StepKeepsBook | pkg/engine/engine.go:191-297 | every command keeps the book sorted, live, free of duplicate ids and uncrossed |
| BookLaws.RunKeepsBook | pkg/engine/engine.go:191-297 | so does every run, and only submitted ids ever rest |
| BookLaws.NeverCrossed | pkg/engine/engine.go:299-313 | after every run the best bid is below the best ask when both exist |
| BookLaws.SweepLeavesSuffix | pkg/orderbook/orderbook.go:112-142 | a sweep leaves a suffix of the other side with at most the front order reduced |
| Answers.AnsweredIff | pkg/engine/engine.go:208-287 | of all conceivable outcomes of a new order, exactly one fits the description told without the machine's functions: whom it trades with and for how much, each field of each record, what is left of either side, and which closing record it gets, for every order type |
| Answers.StepAnswers | pkg/engine/engine.go:191-297 | every command of any kind is answered as described, with the order's time taken from the clock if it has none |
| Answers.RunAnswers | pkg/engine/engine.go:191-297 | so is every command of every valid run |
| Answers.CancelIsAnswered | pkg/engine/engine.go:289-297 | a cancel takes out the one order with the id and reports it cancelled with what it had left; if there is none, nothing moves and one rejection of no order is written |
| Answers.SettleCloses | pkg/engine/engine.go:229-280 | the closing record: FILLED if what is offered suffices, otherwise with the difference remaining ACCEPTED for LIMIT and CANCELLED for IOC and MARKET |
| Answers.PostOnlyAnswered | pkg/engine/engine.go:217-227 | a POST_ONLY order is rejected exactly if some opposite order's price meets its own, and otherwise rests as it came |
| Answers.CanFillIff | pkg/engine/engine.go:318-345 | the FOK check passes exactly if the orders at the best 4096 prices hold enough |
| Answers.CrossIff | pkg/engine/engine.go:301-313 | looking at the best opposite price tells whether any opposite order would be met |
| Answers.TakerStatus | pkg/orderbook/orderbook.go:144-151 | a taker leaves its match filled, partially filled if it traded at all, and otherwise with the status it came with |
| Depth.SnapshotIsExact | pkg/orderbook/orderbook.go:248-276 | a snapshot shows the best prices in order, each with exactly the quantity and number of orders resting there, and skips none |
| Depth.DepthIsShown | pkg/engine/engine.go:318-345 | the depth added up is everything at that many best prices and nothing else |
| Depth.BestIsBest | pkg/orderbook/orderbook.go:64-78 | the best price is some order's, no order's is better, and without orders it is 0 |
| Fairness.TradesAreFair | pkg/orderbook/orderbook.go:109-141 | over every valid run each trade is with an earlier order of the other side at the price that order was submitted with, and within the submitted price of a LIMIT taker |
| Fairness.RestingStatusTells | pkg/orderbook/orderbook.go:177-184 | after every valid run a resting order is marked partially filled if some trade names it as maker, and open otherwise |
| Fairness.TradeStatusTells | pkg/offheap/ring.go:204-227 | a trade record says FILLED exactly if its maker rests no longer after the command, and otherwise PARTIALLY_FILLED |
| Fairness.FirstComeFirstServed | pkg/orderbook/orderbook.go:190-218 | over every valid run better prices come first, and at one price orders stand in the order they were submitted |
| Origins.RestingAsSubmitted | pkg/types/types.go:68-81 | every resting order is one that was submitted, with nothing changed but remaining quantity and status, and its time if it had none |
| OrderLaws.SweepPrices | pkg/orderbook/orderbook.go:114-141 | trade prices get monotonically worse for the taker, and for a LIMIT taker all keep to its price |
| OrderLaws.TradesIff | pkg/orderbook/orderbook.go:156-188 | the i-th maker trades exactly when those before it cannot satisfy the taker |
| OrderLaws.UnboundedTakerKeepsItsPriceIff | pkg/orderbook/orderbook.go:117-119 | a taker whose price does not bound the matching loop (IOC, FOK) stays within it all the same exactly when the makers within it suffice or there are no others |
| OrderLaws.IocTradesThroughItsLimit | pkg/engine/engine.go:256-267 | a two-command run in which an IOC buy limited to 100 trades at 200 |
| OrderLaws.FokAllOrNothing | pkg/engine/engine.go:229-241 | a FOK is either filled completely with a FILLED record, or rejected with book and counters unmoved |
| OrderLaws.FokCheckIsExactIff | pkg/engine/engine.go:318-345 | the pre-check answers correctly for every order exactly when the opposite side has at most 4096 levels |
| OrderLaws.DepthSeesAllIff | pkg/orderbook/orderbook.go:250-276 | a snapshot sees the whole quantity exactly when it goes deep enough, and never more than there is |
| OrderLaws.DeepBookRefusesFok | pkg/engine/engine.go:318-345 | valid runs that build any number of levels beyond 4096 and then refuse a FOK the book could fill |
| OrderLaws.PostOnlyRestsIff | pkg/engine/engine.go:217-227 | POST_ONLY rests exactly if it crosses nothing and never trades |
| OrderLaws.LimitRestsIff | pkg/engine/engine.go:243-254 | a LIMIT order rests exactly if its limit reaches less than its size; the residual is the difference and nothing it could trade with is left |
| EventSourcing.ReplaySweep | pkg/engine/engine.go:347-366 | the trade records of one match turn the swept side into what the match left |
| EventSourcing.JournalIsComplete | pkg/engine/engine.go:208-297 | folding only the emitted records rebuilds, after every run, every resting order with its queue position and all its fields but the user, which no record carries |
| Blindness.RunIsBlind | pkg/engine/engine.go:191-297 | hiding users, times or both before a run or after it is the same: they influence nothing else in book, counters or records |
| Replica.ReplicaButTimes | pkg/engine/engine.go:44-50 | runs of the same commands at other times have the same book, counters and records but for times |
| Replica.BookIsExactIff | pkg/engine/engine.go:44-50 | every run of the same commands at other times ends with the same book exactly if all orders resting in it were submitted with a time of their own |
| Replica.ReplicaIsExactIff | pkg/engine/engine.go:44-50 | every run of the same commands at other times has the same state and records exactly if every submitted order bears a time of its own |
| Users.UsersDoNotMatter | pkg/engine/engine.go:191-297 | runs that differ only in users have the same records, and the same book but for users |
| Users.CancelIsOwnersIff | pkg/types/types.go:115 | a cancel goes through exactly if its id rests, and is then the owner's exactly if sent by the user that submitted the id |
| Users.StrangerCancels | pkg/engine/engine.go:289-297 | a two-command run in which one user cancels another's order |
| Grammar.StepShape | pkg/engine/engine.go:191-206 | a new-order or cancel command emits consecutively numbered trades and then exactly one lifecycle record, all bearing its number; an unknown command only consumes a number |
| Grammar.StreamGrammar | pkg/engine/engine.go:191-370 | sequence numbers count the commands, trade ids are 1, 2, 3, ..., and lifecycle records carry exactly the numbers of the understood commands |
| Conservation.QuantityIsConserved | pkg/engine/engine.go:208-297 | on each side, over every run: submitted equals traded plus cancelled and rejected plus still resting |
| Conservation.OrdersBalance | pkg/orderbook/orderbook.go:159-176 | every resting order's quantity less its remainder is the sum of its trades, and every lifecycle record that bears an order, rejections included, states its true balance when written |
| Conservation.UnsubmittedNeverTrades | pkg/engine/engine.go:347-366 | no trade ever names an id that was not submitted |
| PriceLevels.FillFrontOfFlat | pkg/orderbook/orderbook.go:159-185 | filling the front of the best queue fills the front of the flat side |
| PriceLevels.JoinLevel | pkg/orderbook/orderbook.go:203-205 | joining the queue of a listed price is insertion into the flat side |
| PriceLevels.OpenLevel | pkg/orderbook/orderbook.go:197-205 | opening a price at its sorted place with one order is insertion too |
| PriceLevels.LeaveLevel | pkg/orderbook/orderbook.go:229-231 | leaving one queue is deletion by id from the flat side |
| PriceLevels.DropEmpty | pkg/orderbook/orderbook.go:233-242 | dropping an empty queue with its price changes nothing |
| PriceLevels.AggregateIsLevels | pkg/orderbook/orderbook.go:253-275 | reading levels best first gives the flat side aggregated by price |
| PriceLevels.ReachedDepth | pkg/engine/engine.go:318-345 | what the levels up to the first one out of the taker's reach add up to is the depth of what it reaches |
| BookEdits.WithoutRecs | pkg/orderbook/orderbook.go:228-231 | unlinking an order object from its queue deletes its id from the queue's records and nothing else |
| BookEdits.FillKeeps | pkg/orderbook/orderbook.go:174-184 | one fill keeps levels, cached quantities and cancel index coherent |
| BookEdits.FillFlat | pkg/orderbook/orderbook.go:159-185 | one fill at the best level fills the front of its flat side and leaves the other side alone |
| BookEdits.PushKeeps | pkg/orderbook/orderbook.go:203-216 | queueing a new order keeps everything coherent |
| BookEdits.RemoveKeeps | pkg/orderbook/orderbook.go:228-231 | unlinking an order keeps everything coherent |
| BookEdits.OpenKeeps | pkg/orderbook/orderbook.go:197-202 | filing a new level at its sorted place keeps everything coherent |
| BookEdits.CloseKeeps | pkg/orderbook/orderbook.go:233-242 | dropping an emptied level keeps everything coherent |
| BookEdits.IndexIsLookup | pkg/orderbook/orderbook.go:222-228 | the cancel index answers exactly like a search of the two flat lists |
| BookPicture.RepresentationInvariant | pkg/orderbook/orderbook.go:3-47 | price lists strictly sorted and equal to the map keys, no empty level, cached quantity equal to the sum over the queue, every queued order live and in place, index and queues in bijection |
| BookPicture.ZeroIffEmpty | pkg/orderbook/orderbook.go:122-125 | a level's cached quantity is zero exactly when its queue is empty, on which the matching loop's progress rests |
| BookPicture.FilledSweeping | pkg/orderbook/orderbook.go:156-188 | each trade of the level loop is one more fill of the same sweep, with all other levels untouched |
| OrderBook.SearchPrice | pkg/orderbook/orderbook.go:281-317 | binary search finds where a price is, or belongs, in the sorted list |
| OrderBook.OrderBook.FillFront | pkg/orderbook/orderbook.go:159-185 | one fill in place: quantities, statuses, queue, cached quantity and index |
| OrderBook.OrderBook.FillLevel | pkg/orderbook/orderbook.go:156-188 | the level loop continues the sweep until level or taker is exhausted, with one trade per maker |
| OrderBook.OrderBook.MatchSide | pkg/orderbook/orderbook.go:109-142 | the matching loop terminates and is exactly the sweep of the other flat side |
| OrderBook.OrderBook.Match | pkg/orderbook/orderbook.go:100-153 | the book afterwards is the swept one, the taker has the sweep's remainder and the right status, the trades carry exactly the fills, makers are distinct and leave the book exactly if used up |
| OrderBook.OrderBook.AddOrder | pkg/orderbook/orderbook.go:190-218 | the order rests with status open at its place in price-time order, and the representation invariant holds |
| OrderBook.OrderBook.CancelOrder | pkg/orderbook/orderbook.go:220-246 | the order a search would find is removed from the flat lists and returned as cancelled; an unknown id changes nothing |
| OrderBook.OrderBook.BestBid | pkg/orderbook/orderbook.go:64-70 | the price of the first bid of the flat list, or 0 |
| OrderBook.OrderBook.BestAsk | pkg/orderbook/orderbook.go:72-78 | the price of the first ask of the flat list, or 0 |
| OrderBook.OrderBook.HasOrder | pkg/orderbook/orderbook.go:94-98 | true exactly for the ids in the flat lists |
| OrderBook.OrderBook.Snapshot | pkg/orderbook/orderbook.go:248-276 | the best levels of both sides are the flat lists aggregated by price |
| Engine.OrderPool.Get | pkg/pool/pool.go:33-34 | a zeroed order, either new or taken out of the pool |
| Engine.OrderPool.Put | pkg/pool/pool.go:36-37 | an order is zeroed and taken back; it must not be in the pool already |
| Engine.CommandPool.Get | pkg/pool/pool.go:27-28 | a zeroed command, either new or taken out of the pool |
| Engine.CommandPool.Put | pkg/pool/pool.go:30-31 | a command is zeroed and taken back; it must not be in the pool already |
| Engine.Outbound.PushOrder | pkg/offheap/ring.go:156-178 | the event appended is the order's record |
| Engine.Outbound.PushOrderWithReason | pkg/offheap/ring.go:180-202 | likewise with a reason clipped to 31 characters, and with or without an order |
| Engine.Outbound.PushTrade | pkg/offheap/ring.go:204-227 | the event appended carries the maker's status and the taker's final remainder |
| Engine.Engine.WouldCross | pkg/engine/engine.go:301-313 | true exactly if the best opposite price is positive and within the order's limit |
| Engine.Engine.CanFillCompletely | pkg/engine/engine.go:315-345 | for every order type, true exactly if the first 4096 opposite levels hold enough within the order's reach |
| Engine.UsedUpAll | pkg/engine/engine.go:360-363 | the makers recycled with the trades are exactly the orders the match took out of the book |
| Engine.NotYetRecycled | pkg/engine/engine.go:347-366 | the maker of the next trade is never one already recycled |
| Engine.Engine.EmitTrades | pkg/engine/engine.go:347-366 | trades are numbered on and emitted in order and their used-up makers recycled; with callers drawing and overwriting pooled orders between any two trades the events are the same, and pool and callers gain exactly the used-up makers |
| Engine.Engine.MatchAndEmit | pkg/engine/engine.go:347-366 | a match and its trades: book, counters, taker and events are the specified ones, and no order is lost or held twice, whether callers draw and overwrite pooled orders meanwhile or not |
| Engine.Engine.HandlePostOnly | pkg/engine/engine.go:217-227 | the POST_ONLY branch is the specified step, and the order ends up either in the book or in the pool |
| Engine.Engine.HandleFok | pkg/engine/engine.go:229-241 | the same for FOK |
| Engine.Engine.HandleLimit | pkg/engine/engine.go:243-254 | the same for LIMIT |
| Engine.Engine.HandleImmediate | pkg/engine/engine.go:256-280 | the same for IOC and MARKET |
| Engine.Engine.HandleNewOrder | pkg/engine/engine.go:208-287 | the whole handler, with the time stamped on orders that have none |
| Engine.Engine.HandleCancelOrder | pkg/engine/engine.go:289-297 | a cancel is answered by the record of the cancelled order, which is recycled, or by a rejection |
| Engine.Engine.Process | pkg/engine/engine.go:191-206 | one command is exactly one step of the machine; book and pool together gain exactly the command's order and share none; the command is recycled |
| Engine.MatchFindsNoMore | pkg/engine/engine.go:243-249 | an id that was not resting before a match is not resting after it |
| EngineRuns.NextIsFresh | pkg/gateway/gateway.go:79-80 | in a run with unique ids, each new order's id is unused when its turn comes |
| EngineRuns.Venue.Submit | cmd/stress/main.go:286-305 | a caller draws an order and a command, fills them in and queues them behind the others; every object drawn stays in exactly one place |
| EngineRuns.Venue.Serve | pkg/engine/engine.go:168-206 | the engine takes up the next queued command, and its objects pass from the callers to book and pools |
| EngineRuns.Venue.Accounted | pkg/pool/pool.go:4-11 | what callers hold is exactly what is on queued commands; with everything served, book and pools have every object ever drawn |
| EngineRuns.RunScript | pkg/engine/engine.go:150-206 | in any interleaving of submissions and engine steps, with objects recycled through the pools, the engine reaches the machine's state for the commands served and has written its events, and every order object ever drawn is resting, pooled or on a queued command, in one place only; with all commands served, book and pool have them all |
| Bits.SlotAndLapDivide | pkg/mpsc/ring.go:113-117 | masking and shifting are remainder and quotient by the ring size |
| Bits.SlotAndLapDetermine | pkg/mpsc/ring.go:132-139 | slot and lap together determine the sequence number |
| Bits.SlotsApart | pkg/mpsc/ring.go:112-117 | sequence numbers less than a ring size apart have different slots |
| Bits.NextLap | pkg/mpsc/ring.go:14-23 | one ring size later the same slot comes round, one lap higher |
| Bits.LapIsNotNever | pkg/mpsc/ring.go:51 | with at least two slots no lap equals the never-published mark |
| Bits.Smear | pkg/offheap/ring.go:275-281 | six shift-and-or steps fill every bit below the leading one |
| Bits.NextPow2Disruptor | pkg/disruptor/ring_buffer.go:121-135 | bit smearing gives the least power of two at or above the request, with minimum 1, exactly for requests up to 2^62 |
| Bits.NextPow2Offheap | pkg/offheap/ring.go:270-284 | the same with minimum 2 |
| Bits.NextPow2Mpsc | pkg/mpsc/ring.go:161-166 | the same by counting bits, with minimum 2 |
| Bits.RoundUpIsLeastIff | pkg/mpsc/ring.go:161-166 | each rounding gives the least power of two at or above the request (and the minimum) exactly for requests up to 2^62 |
| Bits.RoundingsAgreeIff | pkg/disruptor/ring_buffer.go:121-135 | the roundings with minimum 1 and 2 agree exactly from two slots on |
| MpscRing.CreateIsSound | pkg/mpsc/ring.go:76-90 | a new ring has the rounded number of slots and satisfies the invariant |
| MpscRing.NextKeeps | pkg/mpsc/ring.go:95-145 | every step of any producer or the consumer keeps the ring's invariant |
| MpscRing.PopsFollowClaims | pkg/mpsc/ring.go:95-145 | under every interleaving the popped commands are the front of the claims, exactly once each and in claim order, and each producer's accepted commands are its own in submit order |
| MpscRing.NothingLost | pkg/mpsc/ring.go:112-117 | a claim not yet popped is being written, sits published in its slot, or is in the consumer's hands |
| MpscRing.SlotExclusive | pkg/mpsc/ring.go:112-118 | at most one thread owns a slot between claim and publication or between lap check and tail advance |
| MpscRing.OnlyOwnerWrites | pkg/mpsc/ring.go:112-143 | only a slot's owner changes it |
| MpscRing.ClearErasesTaken | pkg/mpsc/ring.go:141-143 | the consumer's clearing erases the command it is about to return, never a later one |
| MpscRing.UnpublishedShowsPreviousLap | pkg/mpsc/ring.go:19-23 | until it is published a claimed slot shows the previous lap, or the mark in the first lap |
| MpscRing.RefusedIff | pkg/mpsc/ring.go:97-102 | TrySubmit refuses exactly if the ring is full when the tail is loaded or the tail has overtaken the cursor it loaded, up to whole turns of the 64-bit word |
| MpscRing.StaleRefusal | pkg/mpsc/ring.go:97-102 | a schedule in which an empty ring refuses a command |
| MpscRing.NilWithClaimOutstanding | pkg/mpsc/ring.go:129-139 | a schedule in which TryPop returns nil with a command claimed and not yet popped |
| MpscRing.NilIff | pkg/mpsc/ring.go:136-139 | TryPop returns nil exactly if nothing is claimed or the first claim is not published |
| MpscRing.DrainsCompletely | pkg/mpsc/ring.go:129-145 | once no producer is between claim and publication, the consumer alone pops every claim |
| MpscRing.LenNeverOverstates | pkg/mpsc/ring.go:147-159 | Len never exceeds what was in the ring at its first load, nor the ring size |
| MpscRing.LenCounts | pkg/mpsc/ring.go:147-159 | Len is the number of commands claimed at its first load and not popped at its second, or 0 if that is negative |
| MpscRing.LenIsExact | pkg/mpsc/ring.go:147-159 | in a ring that stands still Len is exactly what is claimed and not popped |
| MpscRing.SubmitEnds | pkg/mpsc/ring.go:95-119 | TrySubmit ends only refused or with its own command published; a producer that loses the race for a slot tries again with the same command |
| SpscRing.NextKeeps | pkg/offheap/ring.go:158-258 | every step of producer or consumer keeps the invariant of a ring of multi-cell records |
| SpscRing.PopsFollowPushes | pkg/offheap/ring.go:158-258 | under every interleaving the records popped are the first ones pushed, whole, in order, at most a ring size behind |
| SpscRing.TurnedAwayIff | pkg/disruptor/ring_buffer.go:64-73 | the producer is turned away exactly if the ring is full when it loads the tail, to try the same record again or to give up, as the ring has it |
| SpscRing.EmptyIff | pkg/disruptor/ring_buffer.go:86-95 | the consumer is turned away exactly if the ring is empty when it loads the head |
| SpscRing.WriterAndReaderApart | pkg/offheap/ring.go:231-258 | a record being written and one being copied are never in the same slot |
| SpscRing.LenNeverOverstates | pkg/disruptor/ring_buffer.go:107-116 | Len never exceeds what was in the ring at its first load |
| SpscRing.LenCounts | pkg/disruptor/ring_buffer.go:107-116 | Len is the number of records pushed at its first load and not popped at its second, or 0 if that is negative |
| SpscRing.LenIsExact | pkg/disruptor/ring_buffer.go:107-116 | in a ring that stands still Len is exactly what is pushed and not popped |
| EventRecord.PointerDelivers | pkg/disruptor/ring_buffer.go:70 | one pointer store is a complete record of a one-cell slot |
| EventRecord.PushOrderDelivers | pkg/offheap/ring.go:158-178 | zeroing and the field writes leave exactly the order's record, whatever the slot held |
| EventRecord.PushReasonDelivers | pkg/offheap/ring.go:182-202 | the same with a clipped, zero-terminated reason |
| EventRecord.PushBareDelivers | pkg/offheap/ring.go:182-202 | the same without an order |
| EventRecord.PushTradeDelivers | pkg/offheap/ring.go:206-227 | the same for a trade |
| EventRecord.EncodeDetermines | pkg/offheap/ring.go:36-52 | events with storable reasons are determined by their cells |
| EventRecord.StepEmittable | pkg/engine/engine.go:208-370 | every event a command emits is what one of the push operations writes |
| EventRecord.ReasonSurvivesIff | pkg/offheap/ring.go:260-268 | a consumer reads back the reason given exactly if it has at most 31 characters |
| EventRecord.CancelReasonIsClipped | pkg/engine/engine.go:292 | what is left of the reason for a rejected cancel |
| EventRecord.PostOnlyReasonIsClipped | pkg/engine/engine.go:221 | what is left of the reason for a rejected POST_ONLY |
| EventRecord.ReadReasonBack | pkg/offheap/ring.go:260-268 | reading up to the first zero byte gives back the stored reason |
| Pipeline.NextKeeps | pkg/engine/engine.go:168-206 | every step of any submitter, the engine or the consumer keeps: events pushed and pending are what the commands taken emit |
| Pipeline.PushReady | pkg/offheap/ring.go:158-227 | whenever an event is due, one of the push operations writes it, and its field writes deliver it |
| Pipeline.ConsumedIsPrefix | pkg/engine/engine.go:168-206 | in every interleaving and for all capacities the events consumed are the first ones the sequential engine emits on the commands in claim order |
| Pipeline.ConsumerRebuildsBook | pkg/offheap/ring.go:231-243 | a consumer that has read everything written so far rebuilds the engine's book, but for users, from those records alone |
| Drain.EverythingArrives | pkg/engine/engine.go:150-206 | from every reachable state with no submitter between claim and publication, steps of engine and consumer alone can bring the consumer every event of every claimed command |
| Histogram.ClampUnreachable | cmd/stress/histogram.go:30-33 | 64-bit samples have bit counts 1 to 63, so the clamp never acts, and the bucket is the sample's power-of-two range |
| Histogram.OfCounts | cmd/stress/histogram.go:26-47 | the fields after any recordings are the true counts, total and maximum of the samples |
| Histogram.OrderIrrelevant | cmd/stress/histogram.go:26-47 | the order in which samples are recorded does not matter |
| Histogram.MergedIsConcatenation | cmd/stress/histogram.go:86-104 | merging two histograms gives the histogram of all their samples |
| Histogram.PercentileWithinHalf | cmd/stress/histogram.go:64-85 | for every list of samples and every rank the reported value is within 50% of the sorted sample at that rank, samples below 1 counting as 1 |
| Histogram.PercentileIsMiddle | cmd/stress/histogram.go:64-85 | the reported value is exactly the middle of the powers of two around the sorted sample at the rank, or 1 for a sample of at most 1 |
| Histogram.TrueSampleWithinHalfIff | cmd/stress/histogram.go:64-85 | measured against the samples as they were, it is within 50% exactly if that sample is positive |
| HistogramRace.NextKeeps | cmd/stress/histogram.go:26-47 | whatever recordings race, after every step each field is right about the recordings that have settled it |
| HistogramRace.RaceSettles | cmd/stress/histogram.go:26-47 | for any number of racing recordings and any interleaving, once all are done the histogram is that of their samples |
| HistogramRace.PercentileEndsInBucket | cmd/stress/histogram.go:66-85 | a percentile read while others record always ends in a bucket |
| Histogram.LatencyHistogram.Record | cmd/stress/histogram.go:26-47 | recording in place adds one sample |
| Histogram.LatencyHistogram.Percentile | cmd/stress/histogram.go:66-85 | the loop reports the midpoint of the first bucket whose cumulative count exceeds the rank |
| Histogram.LatencyHistogram.Merge | cmd/stress/histogram.go:86-104 | merging in place adds the other's buckets and totals, also when both are the same histogram |

## Left out

- OrderBook.OrderBook.MatchSide: the mirrored loops for buy and sell takers are one loop with the side as a parameter; the same holds for the two copies of adding, pruning and price search.
- OrderBook.OrderBook.CancelOrder: a resting order object stands for its own list element, so that unlinking takes one step is not captured.
- OrderBook.OrderBook.AddOrder: price lists are sequences that the methods reassign, so the shifting of their backing arrays by copy, and sharing of those arrays, is not captured.
- Engine.OrderPool.Put: a side has no zero value in the model, so a recycled order keeps its last one until it is filled in again.
- Engine.OrderPool.Get: objects a pool drops are objects it never hands out again.
- Engine.Engine.EmitTrades: the trade pool and the TradeID field of trade objects are not modelled; trades are values.
- EngineRuns.Venue.Submit: the queue between callers and engine is a sequence here; the ring it stands for is MpscRing, and the two are put together as values in Pipeline.
- EngineRuns.Venue.Serve: a command is served in one step. That callers who draw and overwrite recycled orders while a match is still being emitted change nothing is Engine.Engine.MatchAndEmit; the handlers and whole runs do not interleave with them.
- MpscRing.PopsFollowClaims: counters are unbounded in the machine, so nothing is said about the 2^64-th claim; the back-pressure test is on 64-bit words.
- Pipeline.ConsumedIsPrefix: a command's matching is one step at the moment of its pop, since book and counters are private to the engine goroutine; its events then go out one write at a time.
- EventRecord.PushOrderDelivers: field widths of a slot are not modelled; all values the engine writes fit them.
- Histogram.LatencyHistogram.Record: the loop for the maximum runs undisturbed in this method; racing recordings are HistogramRace. The 64-bit total may not overflow.
- Histogram.LatencyHistogram.Percentile: takes the integer rank; the floating-point product that yields it is not modelled.
- Symbol, ClientOID and the SequenceNo field of orders, which matching never reads.
- 64-bit overflow of prices, quantities and level sums.
- Memory orderings weaker than sequential consistency; atomics are single interleaved steps.
- Spinning, yielding, the quit signal and fairness; Drain.dfy shows what the threads can finish, not that a scheduler lets them.
- The wall clock: the time stamped on an order is a parameter of its command.
- Event objects of pkg/types and their pool, which the engine does not use.
- Rate limiting, sharding, the sequencer, thread pinning, C memory management, workload generation and report formatting.
