# Verification of the order book, the ring and the session

A Dafny model, with proofs, of the two systems in this repository: the limit order book of
`02_LOB_Engine` with its lock-free queue, and the framed session of `01_AsyncNet_Server`.
`dafny verify dfyconfig.toml` checks all of it.

## The order book

Four layers, each proved against the one below.

- `PriorityBook`, `FlatBook`, `BookLaws`: a side is one sequence of resting orders, best first, and
  a taker consumes a prefix of the other side. This is the specification, and the laws of matching
  are proved of it.
- `LevelBook`, `Engine`, `Volumes`, `TopOfBook`: sides made of price levels with cached 32-bit
  volumes, slots counted against two pool capacities, 64-bit statistics, and the failures that
  `addOrder` can throw. `AddRefines` and `CancelRefines` say that this is the specification.
- `PriceLevels`, `ObjectPools`, `BookSides`, `MatchSteps`, `OrderBooks`: the program's own form.
  Orders and levels are objects linked by pointers, handed out by two LIFO pools, found through two
  maps and an index, and changed in place by nested loops. `OrderBook.AddOrder` and
  `OrderBook.CancelOrder` have the engine as their postcondition; `OrderBookShape` and
  `OrderBookClient` say what that means for the objects.
- `Runs`: any sequence of operations from any good state, failed calls included;
  `OrderBookClient.PerformAll` takes a book object through one.

`OrderBook.Valid` is the representation invariant. It ties the maps, the linked lists, the index,
both free lists and the counters to an engine state, and it needs nothing of the caller: no id is
assumed fresh, no pool to have room, no quantity to be positive.

Facts of the code that the statements respect: ids are unique only among live orders; every order
type but `LIMIT` takes the market path; the cached volume wraps on append and saturates on remove,
so it leaves the true sum exactly when an order comes to rest that takes its level to 2^32; an order pool
without a free slot fails before any change; a level pool without one fails after the matching
loops, and then the taker's slot stays allocated and is in no list. Such a call has matched
nothing, so it changes nothing else.

## The ring

`Masking` relates the `static_assert`, the mask and counters modulo 2^64 to unbounded counters.
`SpscRing` takes `emplace` and `pop` apart into single loads, slot accesses and stores; a list of
steps is an interleaving, and a load of the other thread's counter may return any value between the
last one seen and the current one, which is what acquire and release give. Slots are read and
written in one order seen by both threads; the proofs that the threads never hold one slot and
that each access follows the loads that allow it are what justifies this. `SpscQueue` is the
object: an array updated in place, one method per step. `MachineWords` has the integer types.

A capacity of zero passes the assertion; the model covers it (such a queue is always full).

## The session

`Protocol` and `Framing` are the wire format and the stream decoder that the session's reads make
up. `SessionModel` is the session as a state machine: the strand is a queue of handlers run one at a
time, and reads, writes and outside calls of `stop` complete at any moment, successfully or not,
with a failing write possibly having sent part of its bytes. An operation begun after the socket
closed can only fail. A schedule is a list of steps. `SessionLaws` has the invariant, `SessionRuns`
what follows in every schedule, and `Sessions` the object with the handlers as methods; `Serve`
takes the object through a schedule.

`SessionStops` writes the answers and the causes of a stop out in numbers, and shows that nothing else
stops a session; `SessionService` shows that a session left alone can always serve its client to
the end.

`stop` only posts a handler, and `processPacket` does not look at the flag, so a packet can be
processed after a stop. `SessionAfterStop` proves exactly when, and the same for messages.

## Reading the proofs

Lemmas carry `{:induction false}` wherever Dafny would otherwise add an induction hypothesis of its
own; each induction is written out. `hide` keeps definitions out of proofs that do not need them.

## Model

| member | source | states |
|---|---|---|
| `PriorityBook.MatchConsumesAPrefix` | 02_LOB_Engine/src/OrderBook.cpp:63-109 | The makers of one call are exactly the first orders of the opposite side, in priority order, each filled to zero except possibly the last; what remains is that prefix cut off; the taker stops only when it is done or nothing acceptable is left |
| `PriorityBook.MatchIsMaximal` | 02_LOB_Engine/src/OrderBook.cpp:63-109 | The filled quantity is exactly the smaller of what the taker wants and all it would accept, wherever it rests; LimitFillsAllWithin and MarketFillsAll say in prices what that is |
| `PriorityBook.MatchKeepsLimit` | 02_LOB_Engine/src/OrderBook.cpp:66-69 | No trade of a limit order has a price above a buyer's limit or below a seller's |
| `PriorityBook.MatchConserves` | 02_LOB_Engine/src/OrderBook.cpp:75-92 | Traded plus left over is what the taker brought; traded plus remaining is what rested |
| `PriorityBook.MatchSplits` | 02_LOB_Engine/src/OrderBook.cpp:60-110 | Running the matcher for a + b leaves the same opposite side, the same remainder and the same fill per maker as running it for a and then for b |
| `FlatBook.MatchLeavesATail` | 02_LOB_Engine/src/OrderBook.cpp:94-107 | What a match leaves is a tail of the side whose first order may have shrunk; it makes at most one trade more than it removes orders |
| `FlatBook.SubmitKeepsBookOk` | 02_LOB_Engine/src/OrderBook.cpp:28-58 | A submission keeps both sides sorted, all ids distinct, every remaining quantity positive, and the book neither crossed nor locked |
| `FlatBook.WithdrawKeepsBookOk` | 02_LOB_Engine/src/OrderBook.cpp:164-181 | A cancel keeps the same invariant, and the id is gone afterwards |
| `BookLaws.TradesAreFills` | 02_LOB_Engine/src/OrderBook.cpp:81-98 | Each trade of a call has a positive quantity and a maker of its own that is not the taker; there are no more trades than opposing orders; only the last maker can survive, and only if the taker is filled |
| `BookLaws.SubmitKeepsLimit` | 02_LOB_Engine/src/OrderBook.cpp:60-162 | No trade of a limit order is priced worse than its limit: none above it for a buyer, none below it for a seller |
| `BookLaws.LimitFillsAllWithin` | 02_LOB_Engine/src/OrderBook.cpp:63-69 | A limit order fills the smaller of its quantity and all that rests opposite at prices within its limit |
| `BookLaws.MarketFillsAll` | 02_LOB_Engine/src/OrderBook.cpp:63-69 | Any other order fills the smaller of its quantity and all that rests opposite, whatever the prices |
| `BookLaws.RestsWithTheDifference` | 02_LOB_Engine/src/OrderBook.cpp:37-55 | A fresh order is in the book afterwards exactly when it is a limit order that wants more than rests within its limit; it then rests at its own price with just the difference, and its side is otherwise as before |
| `BookLaws.WithdrawTakesJustOne` | 02_LOB_Engine/src/OrderBook.cpp:164-181 | A cancel cuts the one order of the id out of its side and leaves every other in its place |
| `BookLaws.SubmitKeepsPriority` | 02_LOB_Engine/src/OrderBook.cpp:60-162 | No submission trades with an order while one ahead of it on its side stays, and the two stay in that order |
| `BookLaws.NewcomerIsBehind` | 02_LOB_Engine/include/PriceLevel.hpp:22-32 | An order comes to rest behind every order of its side priced at least as well |
| `BookLaws.BetterPriceIsAhead` | 02_LOB_Engine/include/OrderBook.hpp:54-57 | On one side a strictly better price is ahead whatever the arrival |
| `BookLaws.SubmitConserves` | 02_LOB_Engine/src/OrderBook.cpp:28-58 | What came in is what rests more, twice what traded, and what a non-limit order discarded |
| `BookLaws.WithdrawConserves` | 02_LOB_Engine/src/OrderBook.cpp:164-181 | A cancel takes out exactly the remaining quantity of its order |
| `BookLaws.WithdrawUndoesSubmit` | 02_LOB_Engine/src/OrderBook.cpp:164-181 | Cancelling an order that rested without trading gives the old book back |
| `BookLaws.MatchMirrors` | 02_LOB_Engine/src/OrderBook.cpp:112-162 | The sell loop is the buy loop on the book with the price axis reversed |
| `BookLaws.SubmitMirrors` | 02_LOB_Engine/src/OrderBook.cpp:37-55 | A whole submission commutes with exchanging buyers and sellers and reversing prices |
| `LevelBook.MatchLevelIsMatch` | 02_LOB_Engine/src/OrderBook.cpp:71-101 | The inner loop on one level, followed by the matcher on the rest, is the flat matcher; it leaves a non-empty level only when the taker is done |
| `LevelBook.MatchLevelsIsMatch` | 02_LOB_Engine/src/OrderBook.cpp:60-110 | Matching level by level, erasing emptied levels on the way, is matching the flat priority sequence, with the same trades, and leaves well-formed levels |
| `LevelBook.LevelsKeepLimit` | 02_LOB_Engine/src/OrderBook.cpp:66-69 | Over any levels, well formed or not, a limit order trades with none priced worse than its limit |
| `LevelBook.RestAtIsInsert` | 02_LOB_Engine/src/OrderBook.cpp:209-227 | Finding or creating the level and appending to it is inserting into the priority sequence |
| `LevelBook.RestAtKeepsLevelsOk` | 02_LOB_Engine/src/OrderBook.cpp:209-227 | Levels stay non-empty, uniform in price and strictly ordered; one level is added exactly when the price had none |
| `LevelBook.CancelInIsRemove` | 02_LOB_Engine/src/OrderBook.cpp:164-176 | Unlinking through the level, and dropping it when it empties, is removing from the priority sequence |
| `LevelBook.CancelInKeepsLevelsOk` | 02_LOB_Engine/src/OrderBook.cpp:229-238 | A cancel leaves no empty level and keeps the order of the levels |
| `LevelBook.LowerBound` | 02_LOB_Engine/src/OrderBook.cpp:211-219 | The position found for a price separates the better levels from the others |
| `Engine.AddRefines` | 02_LOB_Engine/src/OrderBook.cpp:28-58 | Every call that returns changes the flat book, and returns trades, exactly as the price-time-priority specification says; a call that runs out of order slots changes nothing; one that runs out of level slots changes nothing but the loss of the taker's slot |
| `Engine.CancelRefines` | 02_LOB_Engine/src/OrderBook.cpp:164-181 | A cancel is the removal of its id from the flat book, and reports whether the id was live |
| `Engine.AddAnswers` | 02_LOB_Engine/src/OrderBook.cpp:28-58 | What a call that returns has returned, in prices and quantities: nothing, and no change, for a zero quantity or a live id; else no trade beyond the limit, and the smaller of the quantity and what rests within the limit, or for other types all that rests |
| `Engine.OrderPoolExhaustedWhen` | 02_LOB_Engine/src/OrderBook.cpp:31-35 | The order pool runs dry in a call exactly when the id is fresh, the quantity positive, and the live orders and lost slots are as many as the pool has |
| `Engine.LevelPoolExhaustedWhen` | 02_LOB_Engine/src/OrderBook.cpp:215-223 | The level pool runs dry in a call exactly when a fresh limit order meets no acceptable counterpart, its price has no level, and no level slot is free: a level emptied by the same call is reused |
| `Engine.OutOfLevelsMeansNoMatch` | 02_LOB_Engine/src/OrderBook.cpp:39-41 | A call that cannot create its level has matched nothing |
| `Engine.StepKeepsOk` | 02_LOB_Engine/include/OrderBook.hpp:53-67 | Every operation, failed ones included, keeps levels, slots and the flat book in order |
| `Engine.StepCounts` | 02_LOB_Engine/src/OrderBook.cpp:91-92 | The two counters move by the number and the volume of the trades returned, modulo 2^64 |
| `Engine.LevelsUncrossed` | 02_LOB_Engine/src/OrderBook.cpp:67-69 | The level prices of the two sides never meet |
| `Engine.CancelUndoesAdd` | 02_LOB_Engine/src/OrderBook.cpp:164-181 | Adding a limit order that trades with nobody and cancelling it restores the whole engine state, cached volumes included, if and only if the append did not wrap the cached volume |
| `Volumes.AddKeepsCongruence` | 02_LOB_Engine/include/PriceLevel.hpp:34 | Whatever has wrapped, matching and resting keep each cached volume equal to the true sum modulo 2^32 |
| `Volumes.UnlinkCongruentWhen` | 02_LOB_Engine/include/PriceLevel.hpp:54 | A cancel keeps that exactly when the saturating guard does not bite |
| `Volumes.SaturationLosesVolume` | 02_LOB_Engine/include/PriceLevel.hpp:54 | Two live units under a cached volume of 0, once a level has passed 2^32 |
| `Volumes.CancelKeepsExact` | 02_LOB_Engine/include/PriceLevel.hpp:54 | A cancel never disturbs exact cached volumes |
| `Volumes.RemainderIsLeft` | 02_LOB_Engine/src/OrderBook.cpp:63-109 | What an incoming order has left is told by the book before the call: its quantity less all it would accept |
| `Volumes.AddKeepsExactWhen` | 02_LOB_Engine/include/PriceLevel.hpp:34-35 | From exact cached volumes an add leaves them exact if and only if its order does not come to rest where the remainder takes the true volume at its price to 2^32; both can be told before the call |
| `Volumes.StepKeepsExactWhen` | 02_LOB_Engine/include/PriceLevel.hpp:34-55 | The same for any operation |
| `TopOfBook.FirstLevelIsTop` | 02_LOB_Engine/src/OrderBook.cpp:183-195 | The first level has the best price of all orders of its side, and holds all that rests at that price |
| `Runs.RunKeepsOk` | 02_LOB_Engine/include/OrderBook.hpp:53-67 | The engine invariant holds after any sequence of operations |
| `Runs.NeverCrossed` | 02_LOB_Engine/src/OrderBook.cpp:197-207 | In every reachable state each bid price is strictly below each ask price |
| `Runs.RunConserves` | 02_LOB_Engine/src/OrderBook.cpp:28-58 | Over any run, accepted quantity is what still rests, twice what traded, what was cancelled and what non-limit orders discarded |
| `Runs.CountersFollowTheTape` | 02_LOB_Engine/src/OrderBook.cpp:91-92 | The counters are the number and the volume of all trades of the run, modulo 2^64 |
| `Runs.PriceTimePriority` | 02_LOB_Engine/src/OrderBook.cpp:60-162 | While x is ahead of y and stays in the book, no trade of the run names y as maker, through any fills, cancels and arrivals |
| `Runs.BetterPriceGoesFirst` | 02_LOB_Engine/src/OrderBook.cpp:60-162 | Over any run no trade names an order while one of a strictly better price stays live |
| `Runs.EarlierGoesFirst` | 02_LOB_Engine/include/PriceLevel.hpp:22-32 | Over any run no trade names an order while one that rested earlier, priced at least as well, stays live |
| `Runs.TapeKeepsLimits` | 02_LOB_Engine/src/OrderBook.cpp:60-162 | Every trade of a run goes back to a submission of its taker, for no more than it asked, and at no worse than its limit if it is a limit order |
| `Runs.SlotsAreLostOnlyByExhaustion` | 02_LOB_Engine/src/OrderBook.cpp:35-44 | The order slots lost over a run are exactly the calls that ran out of price levels |
| `Runs.ExactThroughoutWhen` | 02_LOB_Engine/include/PriceLevel.hpp:34-55 | The cached volumes stay exact through a run if and only if no order comes to rest where it takes the true volume to 2^32 |
| `Runs.VolumeDrifts` | 02_LOB_Engine/include/PriceLevel.hpp:34-55 | Two sells and a cancel on an empty book leave two live units under a cached volume of 0 |
| `Runs.RunKeepsExact` | 02_LOB_Engine/include/PriceLevel.hpp:34-35 | Every cached volume is exact throughout a run in which no level's sum reaches 2^32 |
| `PriceLevels.Order.Reset` | 02_LOB_Engine/include/Order.hpp:26-27 | Placement new sets every field of the slot again: nothing of the earlier order survives |
| `PriceLevels.PriceLevel.constructor` | 02_LOB_Engine/include/PriceLevel.hpp:10-19 | A new level is an empty, well-formed list |
| `PriceLevels.PriceLevel.Reset` | 02_LOB_Engine/include/PriceLevel.hpp:19 | Placement new makes the slot an empty level at the price |
| `PriceLevels.PriceLevel.Append` | 02_LOB_Engine/include/PriceLevel.hpp:22-36 | The list spells the old chain followed by the order: acyclic, prev the inverse of next, head and tail its ends, every node pointing back; the cached volume wraps at 2^32 |
| `PriceLevels.PriceLevel.StepOver` | 02_LOB_Engine/include/PriceLevel.hpp:42-52 | Re-linking the neighbours or ends makes every link step over the order |
| `PriceLevels.PriceLevel.Remove` | 02_LOB_Engine/include/PriceLevel.hpp:39-60 | The list spells the old chain without the order, whose own links are cleared; the cached volume saturates at 0 |
| `ObjectPools.ObjectPool.constructor` | 02_LOB_Engine/include/ObjectPool.hpp:15-21 | The free list is the whole storage in order |
| `ObjectPools.ObjectPool.Allocate` | 02_LOB_Engine/include/ObjectPool.hpp:28-40 | Hands out the last slot of the free list, which was not in use; fails, changing nothing, exactly when the list is empty; the list stays duplicate-free and the complement of the slots in use |
| `ObjectPools.ObjectPool.Deallocate` | 02_LOB_Engine/include/ObjectPool.hpp:42-48 | Puts a used slot back last, keeping the same invariant |
| `ObjectPools.ObjectPool.Available` | 02_LOB_Engine/include/ObjectPool.hpp:50-52 | Reports the slots that are not in use |
| `OrderBooks.OrderBook.constructor` | 02_LOB_Engine/src/OrderBook.cpp:8 | A new book stands for the empty engine with all slots free |
| `OrderBooks.OrderBook.FillHead` | 02_LOB_Engine/src/OrderBook.cpp:75-92 | One fill: both quantities, the cached volume, the event and the two counters move together as in the model |
| `OrderBooks.OrderBook.DropHead` | 02_LOB_Engine/src/OrderBook.cpp:94-98 | A filled maker leaves index, list and slot, and every other level, order and slot stays as it was |
| `OrderBooks.OrderBook.MatchMaker` | 02_LOB_Engine/src/OrderBook.cpp:72-101 | One pass of the inner loop takes the heap from one model state to the next, and the successor saved before the fill is the new head |
| `OrderBooks.OrderBook.MatchLevel` | 02_LOB_Engine/src/OrderBook.cpp:71-101 | The inner loop ends with the trades, remainder and level that the level matcher gives, though it frees nodes while walking them |
| `OrderBooks.OrderBook.DropLevel` | 02_LOB_Engine/src/OrderBook.cpp:103-105 | An emptied level leaves its map and returns to its pool, in that map only |
| `OrderBooks.OrderBook.SweepLevel` | 02_LOB_Engine/src/OrderBook.cpp:64-108 | One pass of an outer loop either removes a level or fills the taker, and leaves the heap at the next state of the sweep |
| `OrderBooks.OrderBook.MatchBuyOrder` | 02_LOB_Engine/src/OrderBook.cpp:60-110 | The nested loops terminate though they erase nodes and levels, return the trades of the level matcher on the asks, none of a limit order above its price, and leave the bids alone |
| `OrderBooks.OrderBook.MatchSellOrder` | 02_LOB_Engine/src/OrderBook.cpp:112-162 | The same against the bids, none of a limit order below its price, leaving the asks alone |
| `OrderBooks.OrderBook.GetOrCreatePriceLevel` | 02_LOB_Engine/src/OrderBook.cpp:209-227 | Gives the level of the price, creating it in its place if need be; fails, changing nothing, exactly when it has to create one and no slot is free |
| `OrderBooks.OrderBook.Settle` | 02_LOB_Engine/src/OrderBook.cpp:39-45 | Rests what is left of a limit order and gives every other slot back; when no level can be created the taker's slot stays allocated |
| `OrderBooks.OrderBook.AddOrder` | 02_LOB_Engine/src/OrderBook.cpp:28-58 | For every well-formed book and all arguments the heap code returns what the engine returns and stands for its new state. In prices: a limit order trades at no worse than its limit and for all that rests within it, any other type for all that rests, up to the quantity. A resting order that met nobody costs exactly the last free order slot |
| `OrderBooks.OrderBook.CancelOrder` | 02_LOB_Engine/src/OrderBook.cpp:164-181 | The heap code does what the engine does, and returns the order slot and the level slot, if emptied, to the ends of their free lists |
| `OrderBooks.OrderBook.RemovePriceLevelIfEmpty` | 02_LOB_Engine/src/OrderBook.cpp:229-238 | A level that the removal emptied leaves its map and goes to the end of the free list; any other stays |
| `OrderBooks.OrderBook.GetBestBid` | 02_LOB_Engine/src/OrderBook.cpp:183-188 | Succeeds exactly when bids rest, with the best price of all of them and, while the cached volumes are exact, all that rests there |
| `OrderBooks.OrderBook.GetBestAsk` | 02_LOB_Engine/src/OrderBook.cpp:190-195 | The same for the asks |
| `OrderBooks.OrderBook.GetSpread` | 02_LOB_Engine/src/OrderBook.cpp:197-207 | Succeeds exactly when both sides are non-empty, and then gives the best ask less the best bid, which is positive |
| `OrderBooks.OrderBook.PoolPartition` | 02_LOB_Engine/include/ObjectPool.hpp:28-48 | Between calls each pool splits without overlap into its free list, the objects in the book and the slots lost to failed calls, and the sizes add up to the capacity |
| `OrderBookShape.IndexedOrdersAreChained` | 02_LOB_Engine/include/OrderBook.hpp:59-60 | Every indexed order is live, sits in a level of its side at that level's price, and points back to it |
| `OrderBookShape.ChainedOrdersAreIndexed` | 02_LOB_Engine/include/OrderBook.hpp:53-60 | Every level in a map is non-empty, well linked and counted right, and each of its orders is the one its id is indexed under |
| `OrderBookShape.OrdersSitOnce` | 02_LOB_Engine/include/PriceLevel.hpp:13-14 | No order sits in two places of the two maps |
| `OrderBookClient.AddThenCancel` | 02_LOB_Engine/tests/TestOrderBook.cpp:46-61 | Adding a limit order that meets nobody and cancelling it restores both maps, every chain, the index and both free lists element for element, and the cached volumes unless the append wrapped one |
| `OrderBookClient.PerformAll` | 02_LOB_Engine/src/OrderBook.cpp:28-181 | A book object taken through any operations is in the state of the engine's run and has returned its trades, so that the results on runs are results on the object |
| `Masking.AssertMeansPowerOfTwo` | 02_LOB_Engine/include/LockFreeQueue.hpp:21 | The static assertion holds exactly for the powers of two and for zero |
| `Masking.MaskIsRemainder` | 02_LOB_Engine/include/LockFreeQueue.hpp:39 | Masking with 2^k - 1 is the remainder modulo 2^k |
| `Masking.MaskedWrapIsSlot` | 02_LOB_Engine/include/LockFreeQueue.hpp:68 | Taking the counter modulo 2^64 first does not move its slot |
| `Masking.CloseCountersDiffer` | 02_LOB_Engine/include/LockFreeQueue.hpp:35-39 | Counters less than the capacity apart have different slots |
| `SpscRing.SlotOfCounter` | 02_LOB_Engine/include/LockFreeQueue.hpp:39-52 | For every admitted capacity the masked wrapped counter is the unbounded counter's slot |
| `SpscRing.TestsAreExact` | 02_LOB_Engine/include/LockFreeQueue.hpp:35-50 | For every loaded value, stale or fresh, the wrapped fullness test holds exactly when the capacity lies between that head and the tail, and the emptiness test exactly when that tail is the head |
| `SpscRing.StaleHeadHidesRoom` | 02_LOB_Engine/include/LockFreeQueue.hpp:34-37 | For every capacity some interleaving refuses a value, by a stale load of the head, though the queue has room |
| `SpscRing.StaleTailHidesValues` | 02_LOB_Engine/include/LockFreeQueue.hpp:47-50 | For every capacity some interleaving finds no value, by a stale load of the tail, in a full queue |
| `SpscRing.SlotsNeverCollide` | 02_LOB_Engine/include/LockFreeQueue.hpp:39-52 | Whenever both threads have passed their tests the two masked indices differ and lie in the buffer |
| `SpscRing.StepKeepsInv` | 02_LOB_Engine/include/LockFreeQueue.hpp:31-55 | Each single load, slot access and store keeps the protocol invariant |
| `SpscRing.RunKeepsInv` | 02_LOB_Engine/include/LockFreeQueue.hpp:31-55 | The invariant holds in every interleaving, with stale loads and counters of any size |
| `SpscRing.NothingLostOrReordered` | 02_LOB_Engine/include/LockFreeQueue.hpp:31-55 | In every interleaving the popped values are a prefix of the pushed ones, and the unpopped rest is exactly the buffer window, at most the capacity of it |
| `SpscRing.NoRaces` | 02_LOB_Engine/include/LockFreeQueue.hpp:39-52 | In no interleaving do the two threads hold the same slot, or touch one outside the buffer |
| `SpscRing.AccessesAreOrdered` | 02_LOB_Engine/include/LockFreeQueue.hpp:32-53 | What the consumer is about to read was completely written before the tail it loaded; what the producer is about to overwrite was read before the head it loaded |
| `SpscRing.StepIsQueueStep` | 02_LOB_Engine/include/LockFreeQueue.hpp:40-53 | Every step is a step of a bounded FIFO queue that changes only at the two stores: the tail's appends while there is room, the head's takes the front value |
| `SpscRing.SizeIsExactUntilTheTailWraps` | 02_LOB_Engine/include/LockFreeQueue.hpp:57-61 | size() on a quiet queue counts it exactly if and only if the wrapped head is not above the wrapped tail; otherwise it reports 0 for a queue that holds values |
| `SpscRing.TailWrapsAlone` | 02_LOB_Engine/include/LockFreeQueue.hpp:57-65 | Every queue of positive capacity reaches such a state |
| `SpscQueue.LockFreeSPSCQueue.constructor` | 02_LOB_Engine/include/LockFreeQueue.hpp:23 | A new queue satisfies the invariant and is empty |
| `SpscQueue.LockFreeSPSCQueue.BeginWrite` | 02_LOB_Engine/include/LockFreeQueue.hpp:39 | Starting the assignment stays inside the buffer and is one protocol step |
| `SpscQueue.LockFreeSPSCQueue.EndWrite` | 02_LOB_Engine/include/LockFreeQueue.hpp:39 | Finishing it is one protocol step |
| `SpscQueue.LockFreeSPSCQueue.PublishTail` | 02_LOB_Engine/include/LockFreeQueue.hpp:40 | The release store of the tail is one protocol step |
| `SpscQueue.LockFreeSPSCQueue.EndRead` | 02_LOB_Engine/include/LockFreeQueue.hpp:52 | Moving the value out stays inside the buffer and is one protocol step |
| `SpscQueue.LockFreeSPSCQueue.PublishHead` | 02_LOB_Engine/include/LockFreeQueue.hpp:53 | The release store of the head is one protocol step |
| `SpscQueue.LockFreeSPSCQueue.Emplace` | 02_LOB_Engine/include/LockFreeQueue.hpp:31-42 | With the consumer stopped anywhere inside its call, and whatever value, stale or new, the load of the head returns, succeeds exactly when fewer than the capacity of values lie between that head and the tail, and then adds the value at the back; with the newest head, exactly when the queue has room |
| `SpscQueue.LockFreeSPSCQueue.Pop` | 02_LOB_Engine/include/LockFreeQueue.hpp:44-55 | With the producer stopped anywhere inside its call, and whatever value the load of the tail returns, succeeds exactly when that tail is past the head, and then takes the oldest value; with the newest tail, exactly when the queue holds one |
| `Protocol.SerializeHeader` | 01_AsyncNet_Server/src/Protocol.cpp:7-19 | The filled buffer is the network-order encoding: the magic, type and length are the numbers its bytes spell, most significant first |
| `Protocol.DeserializeHeader` | 01_AsyncNet_Server/src/Protocol.cpp:21-43 | Succeeds exactly on eight bytes that start 0x41 0x4E; the fields read are the numbers the bytes spell, most significant first, even when the magic is wrong; too few bytes leave the caller's header alone |
| `Protocol.SerializePacket` | 01_AsyncNet_Server/src/Protocol.cpp:45-53 | The bytes are magic, type and the 32-bit length of the payload, most significant byte first, and then the payload |
| `Protocol.HeaderIsInNetworkOrder` | 01_AsyncNet_Server/src/Protocol.cpp:10-16 | The eight bytes of any header, read as numbers most significant byte first, are its magic, type and length |
| `Protocol.EncodeThenParse` | 01_AsyncNet_Server/src/Protocol.cpp:7-37 | Whatever follows it, an encoded header parses back to itself |
| `Protocol.ParseThenEncode` | 01_AsyncNet_Server/src/Protocol.cpp:26-36 | Any eight bytes are the encoding of the header they spell |
| `Framing.PacketRoundTrip` | 01_AsyncNet_Server/src/Protocol.cpp:45-53 | A packet comes back from its own encoding, with its length normalised, if and only if it has the magic and at most 65536 bytes of payload |
| `Framing.PacketComesBackWhen` | 01_AsyncNet_Server/src/Protocol.cpp:45-53 | In numbers: exactly when the magic is 0x414E and the payload has at most 65536 bytes |
| `Framing.RefusedWhen` | 01_AsyncNet_Server/src/Session.cpp:82-93 | A frame is refused exactly when its first two bytes are not 0x41 0x4E or the number in its last four header bytes is over 65536 |
| `Framing.DecodePast` | 01_AsyncNet_Server/src/Session.cpp:82-122 | Decoding goes through the encodings of packets that fit and carries on with the rest |
| `Framing.StreamRoundTrip` | 01_AsyncNet_Server/src/Session.cpp:65-123 | A stream of encoded packets decodes to exactly those packets and consumes it all |
| `Framing.ReencodesConsumed` | 01_AsyncNet_Server/src/Session.cpp:65-123 | Re-encoding what was decoded from any bytes gives back the bytes consumed; every packet decoded fits; decoding stops only where no whole frame follows |
| `Framing.DecodeResumes` | 01_AsyncNet_Server/src/Session.cpp:65-123 | Decoding in pieces, carrying the unconsumed bytes over, is decoding at once |
| `Framing.TruncationYieldsPrefix` | 01_AsyncNet_Server/src/Session.cpp:65-123 | Cutting any stream short only drops packets from the end |
| `Framing.RejectionIsFinal` | 01_AsyncNet_Server/src/Session.cpp:83-93 | Once a header is refused no later byte changes the outcome |
| `Framing.TruncationIsNotAnError` | 01_AsyncNet_Server/src/Session.cpp:83-93 | A cut anywhere in a stream of packets that fit yields a prefix of them and is never taken for a bad header |
| `SessionLaws.TurnKeepsInv` | 01_AsyncNet_Server/src/Session.cpp:33-170 | Each handler the strand runs keeps the session invariant |
| `SessionLaws.StepKeepsInv` | 01_AsyncNet_Server/src/Session.cpp:30-171 | So does every completion, error and outside stop |
| `SessionLaws.RunKeepsInv` | 01_AsyncNet_Server/src/Session.cpp:25-171 | The session invariant holds in every schedule |
| `SessionLaws.RejectedThere` | 01_AsyncNet_Server/src/Session.cpp:83-93 | A header is refused only where decoding the client's bytes gets stuck on it |
| `SessionRuns.StopRunsOnce` | 01_AsyncNet_Server/src/Session.cpp:30-43 | In every schedule the stop body has run at most once, and every error, refused header or end of reading is followed by a stop |
| `SessionRuns.OneWriteAtATime` | 01_AsyncNet_Server/src/Session.cpp:151-171 | In every schedule at most one write is under way, its bytes are the untouched front of the queue until it completes, and its completion finds a front to pop |
| `SessionRuns.QueueIsBeingWritten` | 01_AsyncNet_Server/src/Session.cpp:56-61 | No wake-up is lost: unless a write has failed, a queued message has a write under way or completed |
| `SessionRuns.OneReadAtATime` | 01_AsyncNet_Server/src/Session.cpp:65-123 | In every schedule at most one read is under way, into a buffer of the right size |
| `SessionRuns.ProcessesWhatDecodes` | 01_AsyncNet_Server/src/Session.cpp:82-123 | The packets processed are a prefix, in order, of what the client's bytes decode to, all of them if a header was refused |
| `SessionRuns.AnswersAreKeptInOrder` | 01_AsyncNet_Server/src/Session.cpp:49-63 | Until a stop every answer is written, queued or on the strand, in order; a stop loses only the last ones |
| `SessionRuns.WireIsPrefixOfAnswers` | 01_AsyncNet_Server/src/Session.cpp:151-171 | Whatever fails or stops, and whenever, the bytes that reached the client are a prefix of the encoded answers to the packets its bytes decode to |
| `SessionRuns.QuietMeansAnswered` | 01_AsyncNet_Server/src/Session.cpp:65-171 | A session that falls quiet without a stop has processed every packet of the input and delivered every answer |
| `SessionRuns.ClientDecodesAnswers` | 01_AsyncNet_Server/src/Session.cpp:125-148 | A client decoding what it receives gets the answers to what it sent, in order, and never meets a bad header |
| `SessionStops.AnswersAre` | 01_AsyncNet_Server/src/Protocol.cpp:55-70 | A packet of type 0x0001 is answered by one of type 0x0002 without payload, one of type 0x0003 by one of type 0x0004 with the same payload, any other by none |
| `SessionStops.AnswersOnTheWire` | 01_AsyncNet_Server/src/Protocol.cpp:45-70 | Decoding the bytes of the answer gives exactly that packet: an echo with every byte of the payload, up to 65536, or a pong |
| `SessionStops.AnswerIsPosted` | 01_AsyncNet_Server/src/Session.cpp:125-149 | Processing a packet counts it and puts the bytes of that answer, and nothing else, last on the strand |
| `SessionStops.DisconnectStops` | 01_AsyncNet_Server/src/Session.cpp:139-143 | Processing a packet asks for a stop exactly when its type is 0x00FF |
| `SessionStops.AnyOperationMayFail` | 01_AsyncNet_Server/src/Session.cpp:73-80 | In every schedule any read under way may fail and any live write after any part of its bytes, and the failure joins the strand |
| `SessionStops.EveryCauseStops` | 01_AsyncNet_Server/src/Session.cpp:74-143 | In every schedule an outside stop, a disconnect processed, a refused header and a failed write each leave the session stopped or with the stop on its strand |
| `SessionStops.CalmSessionStopsWhen` | 01_AsyncNet_Server/src/Session.cpp:74-143 | With no failure and no outside stop, a session stops if and only if it has processed a disconnect or refused a header, and it refuses one only after every packet before it |
| `SessionService.EveryClientCanBeServed` | 01_AsyncNet_Server/src/Session.cpp:25-171 | For every input without a disconnect or a bad header some schedule without failures processes all of it and delivers every answer, which the client decodes |
| `SessionAfterStop.PacketAfterStopWhen` | 01_AsyncNet_Server/src/Session.cpp:125-149 | Processing does not check for a stop. A stopped session can still process a packet if and only if a read begun on the open socket, which the client's bytes can satisfy, or one that has succeeded and waits on the strand, completes a packet: a payload, or an accepted header without one |
| `SessionAfterStop.AtMostOnePacketAfterStop` | 01_AsyncNet_Server/src/Session.cpp:125-149 | After a stop at most one more packet is processed, and none where that condition fails |
| `SessionAfterStop.PacketProcessedAfterStop` | 01_AsyncNet_Server/src/Session.cpp:125-126 | One can be: an example for any packet without payload |
| `SessionAfterStop.AtMostOneMessageAfterStop` | 01_AsyncNet_Server/src/Session.cpp:54-61 | After a stop the messages written and queued never change again, and at most one more is completely written, only if a write begun before is under way |
| `SessionAfterStop.MessageAfterStopWhen` | 01_AsyncNet_Server/src/Session.cpp:151-171 | A stopped session can still deliver a message if and only if such a write is under way |
| `SessionAfterStop.DeliveredIsOnTheWire` | 01_AsyncNet_Server/src/Session.cpp:151-171 | The messages counted as delivered are the first posted, and their bytes have reached the client |
| `Sessions.Session.constructor` | 01_AsyncNet_Server/src/Session.cpp:8-19 | A new session is the model's |
| `Sessions.Session.Stop` | 01_AsyncNet_Server/src/Session.cpp:30-43 | Only posts a handler; nothing is closed yet |
| `Sessions.Session.Send` | 01_AsyncNet_Server/src/Session.cpp:49-63 | Posts the encoded packet behind everything already on the strand |
| `Sessions.Session.DoReadHeader` | 01_AsyncNet_Server/src/Session.cpp:65-70 | Starts one read of the header |
| `Sessions.Session.DoReadPayload` | 01_AsyncNet_Server/src/Session.cpp:104-110 | Resizes the payload buffer and starts one read of it |
| `Sessions.Session.DoWrite` | 01_AsyncNet_Server/src/Session.cpp:151-156 | Starts one write of the front of the queue |
| `Sessions.Session.ProcessPacket` | 01_AsyncNet_Server/src/Session.cpp:125-149 | Counts the packet and posts its answer or a stop; in numbers, a stop exactly for type 0x00FF |
| `Sessions.Session.RunStop` | 01_AsyncNet_Server/src/Session.cpp:32-42 | The stop handler is the model's: a second one changes nothing |
| `Sessions.Session.RunSend` | 01_AsyncNet_Server/src/Session.cpp:53-62 | The send handler is the model's: it starts a write only when the queue was empty, and drops the message once stopped |
| `Sessions.Session.RunHeader` | 01_AsyncNet_Server/src/Session.cpp:73-101 | The header handler is the model's, through the real header parser |
| `Sessions.Session.RunPayload` | 01_AsyncNet_Server/src/Session.cpp:113-122 | The payload handler is the model's |
| `Sessions.Session.RunWrite` | 01_AsyncNet_Server/src/Session.cpp:159-170 | The write handler is the model's: the front is popped only on success |
| `Sessions.Session.ReadArrives` | 01_AsyncNet_Server/src/Session.cpp:68-73 | A completed read puts the next bytes of the input into its buffer and its handler on the strand |
| `Sessions.Session.WriteErrs` | 01_AsyncNet_Server/src/Session.cpp:154-160 | A write may fail with part of its bytes sent |
| `Sessions.Serve` | 01_AsyncNet_Server/src/Session.cpp:8-171 | A session object taken from its construction through any schedule is in the state of the model's run, so that the results on schedules are results on the object |
| `Sessions.Session.RunOne` | 01_AsyncNet_Server/src/Session.cpp:30-171 | The strand's turn on the object is the model's turn and keeps the session invariant |

## Left out

- Trade timestamps: a clock reading without influence on matching; `Trade` has no such field.
- `printBook`, both `main.cpp` files, `Logger.hpp` and the benchmarks: output and measurement only.
- `OrderBook::~OrderBook`: gives back slots that nobody uses again.
- `getBidLevelsCount`, `getAskLevelsCount`, `getActiveOrdersCount` and the counter getters: one field each.
- `Order.quantity`, `prevLevel`, `nextLevel`, `Status`, `isWriting_`, the concepts: nothing reads them.
- The price maps are sorted sequences of entries and the index is a map value: tree shape, hashing,
  iterator invalidation and the cost of a lookup are not modelled.
- Null arguments of `remove` and `deallocate`: no caller passes one, and the types here exclude it.
- The claim of no heap allocation: the maps, the index and the vector of matches do allocate, and
  allocation is not modelled.
- The inner loops of `matchBuyOrder` and `matchSellOrder` are the same but for names, and are one
  method here; the exceptions of the object pools are outcomes of the call.
- `size()` and `empty()` of the ring while a call is under way or from a third thread: they are
  approximate there and promise nothing.
- Move construction that throws, and what a moved-from value holds: a slot is `MovedFrom` after `pop`.
- Interruptions inside one call of the queue object: the interleavings of single accesses are in `SpscRing`.
- Cache-line alignment and real addresses.
- `Server`, `SessionManager`, signals and threads: the manager is a processed counter and a count of
  removals; the address string and logging are dropped.
- Boost.Asio and the sockets: assumed to complete an exact-length read or write fully or fail, and
  the strand to run posted handlers one at a time in order.
- Calls of `send` from outside the session: the repository has none.
- A stop that overtakes an operation started on the open socket may still see it succeed; no bound on
  how long a completion takes, so nothing is proved about time.
