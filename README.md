# Binance depth and aggregate-trade cache, modelled in Dafny

This project models the reconciliation logic of `BinanceGateway` (package `source.data`): the local
replica of an exchange order book and the cache of aggregate trades.

- **Depth cache.** A REST snapshot seeds an update-id cursor (`lastUpdateId`) and two price ladders,
  asks and bids. Each ladder is a `TreeMap` built with `Comparator.reverseOrder()`, so it iterates
  from the highest price to the lowest. A streamed depth event is applied only when its
  `finalUpdateId` is strictly greater than the cursor. Applying it moves the cursor to that id and
  patches each side from that side's deltas. A delta with quantity zero removes the price level; any
  other quantity inserts or overwrites it. Any other event is dropped without effect. The best ask
  is the last entry of the reverse-ordered ask ladder, i.e. its lowest price. The best bid is the
  first entry of the bid ladder, i.e. its highest price.
- **Aggregate-trade cache.** A map from aggregate trade id to trade record. It is filled from a
  snapshot list, where a later occurrence of an id overwrites an earlier one. Every streamed trade
  event then upserts it: the cached record for the event's id (or a new one) gets all six fields
  from the event and is put back.

Layout:

- `Common.dfy`: the Java `long` range (`int64`) and `Option` (a possibly-null result).
- `Ladders.dfy`: a ladder as a `map<real, real>`. It holds snapshot loading (`FromEntries`), the
  delta rule and its fold (`Patch`, `ApplyDeltas`), and the reverse order of keys (`Descending`),
  with their lemmas.
- `Depth.dfy`: the depth cache as a value, the rule for one event (`OnDepthEvent`), and a stream of
  events (`OnDepthEvents`), with their lemmas.
- `Trades.dfy`: the trade record, the upsert (`Upsert`), and snapshot loading (`FromSnapshot`), with
  their lemmas.
- `Gateway.dfy`: the objects. `PriceLadder` is the mutable reverse-ordered `TreeMap`.
  `BinanceGateway` has the fields `lastUpdateId`, `asks`, `bids` and `aggTradesCache`, the snapshot
  initialisers, the in-place `UpdateOrderBook` loop, the two stream callbacks and the best-price
  queries. Each state-changing method is proved to equal the corresponding function of
  `Ladders.dfy` (`UpdateOrderBook`, `LadderOf`), `Depth.dfy` (`OnDepthEvent`, the constructor's
  depth cache) or `Trades.dfy` (`OnAggTradeEvent`, `AggTradesCacheOf`), applied to the old state.

Prices and quantities are `BigDecimal` in the source. Their keys are compared with `compareTo`, and
zero is tested with `compareTo(ZERO) == 0`. So they are modelled as `real`: numerically equal
decimals are one key and one zero. Ids are Java `long`s and are modelled as `int64`. The code does
no arithmetic on them, only comparisons.

Three facts about the code shape the model:

- The snapshot ladders are built without discarding zero quantities (`BinanceGateway.java:55-63`).
  So "no zero level" is proved under the precondition that the snapshot has none
  (`Depth.OnDepthEventsKeepNoZero`). It is not a guarantee of initialisation.
- Both ladders use the reverse (descending) comparator, asks included. The best ask is still the
  minimum because it is taken with `lastEntry`.
- No gap detection is done against a first update id. Any event beyond the cursor is applied.

## Model

| member | source | states |
|---|---|---|
| `Ladders.FromEntries` | src/main/java/source/data/BinanceGateway.java:54-63 | defines a snapshot ladder: the left fold of `put` over the entry list into an empty ladder, with no zero test |
| `Ladders.FromEntriesKeys` | src/main/java/source/data/BinanceGateway.java:54-63 | a snapshot ladder holds exactly the prices of its entry list |
| `Ladders.FromEntriesLastWins` | src/main/java/source/data/BinanceGateway.java:54-63 | each snapshot price maps to the quantity of its last entry in the list |
| `Ladders.FromEntriesNoZero` | src/main/java/source/data/BinanceGateway.java:55-63 | a snapshot list without zero quantities gives a ladder without zero levels |
| `Ladders.Patch` | src/main/java/source/data/BinanceGateway.java:148-153 | quantity zero leaves the price absent; otherwise the price maps to the new quantity; every other price keeps its presence and quantity |
| `Ladders.ApplyDeltas` | src/main/java/source/data/BinanceGateway.java:143-155 | defines the effect of `updateOrderBook`: the left fold of `Patch` over the delta list, first entry to last |
| `Ladders.RemoveAbsentIsNoOp` | src/main/java/source/data/BinanceGateway.java:148-150 | removing a price that is not in the ladder leaves the ladder unchanged |
| `Ladders.LastDeltaWins` | src/main/java/source/data/BinanceGateway.java:143-155 | after patching with a delta list, a mentioned price is decided by its last delta: absent if that delta's quantity is zero, otherwise mapped to that quantity |
| `Ladders.UnmentionedUnchanged` | src/main/java/source/data/BinanceGateway.java:143-155 | a price the delta list does not mention keeps its presence and quantity |
| `Ladders.ApplyDeltasKeepsNoZero` | src/main/java/source/data/BinanceGateway.java:148-153 | a ladder with no zero level has none after patching |
| `Ladders.ApplyDeltasAppend` | src/main/java/source/data/BinanceGateway.java:145-153 | patching with two lists in turn equals patching with their concatenation |
| `Ladders.NonZeroDeltasArePuts` | src/main/java/source/data/BinanceGateway.java:145-153 | with no zero quantity, patching an empty ladder builds the same ladder as snapshot loading |
| `Ladders.Descending` | src/main/java/source/data/BinanceGateway.java:54 | the reverse comparator's order lists every key of the ladder exactly once, strictly descending |
| `Ladders.DescendingEnds` | src/main/java/source/data/BinanceGateway.java:168-177 | in that order the first key is the greatest and the last the least |
| `Depth.FromSnapshot` | src/main/java/source/data/BinanceGateway.java:51-64 | defines the seeded depth cache: the cursor is the snapshot id, and each side is `FromEntries` of that side's list |
| `Depth.OnDepthEvent` | src/main/java/source/data/BinanceGateway.java:88-93 | defines the depth callback: apply when `finalUpdateId` > cursor (cursor := id, each side patched by `ApplyDeltas` of its own deltas), else identity |
| `Depth.OnDepthEvents` | src/main/java/source/data/BinanceGateway.java:88-93 | defines a stream of depth callbacks: the left fold of `OnDepthEvent` over the events in delivery order |
| `Depth.StaleEventIgnored` | src/main/java/source/data/BinanceGateway.java:89 | an event whose final update id is not beyond the cursor leaves the cursor and both ladders unchanged |
| `Depth.FreshEventApplied` | src/main/java/source/data/BinanceGateway.java:89-93 | an event beyond the cursor sets the cursor to exactly its id, patches asks only from ask deltas and bids only from bid deltas |
| `Depth.CursorNeverDecreases` | src/main/java/source/data/BinanceGateway.java:89-91 | the cursor never decreases, and strictly increases whenever the replica changes |
| `Depth.DepthEventIdempotent` | src/main/java/source/data/BinanceGateway.java:89-93 | the same event twice in a row has the effect of once |
| `Depth.OnDepthEventKeepsNoZero` | src/main/java/source/data/BinanceGateway.java:88-93 | an event keeps a replica free of zero levels |
| `Depth.OnDepthEventsKeepNoZero` | src/main/java/source/data/BinanceGateway.java:51-93 | a replica seeded from a snapshot without zero quantities has no zero level after any stream of events |
| `Depth.CursorIsHighestId` | src/main/java/source/data/BinanceGateway.java:88-91 | after a stream the cursor is the greatest of the initial cursor and all event ids |
| `Depth.IncreasingEventsAllApplied` | src/main/java/source/data/BinanceGateway.java:88-93 | for ids strictly increasing from beyond the cursor, each ladder is the in-order fold of all that side's deltas and the cursor is the last id |
| `Depth.WorkedExample` | src/main/java/source/data/BinanceGateway.java:88-93 | cursor 100: event 99 is dropped; event 101 empties bid 10.0, sets ask 10.5 to 2 and moves the cursor to 101 |
| `Trades.Upsert` | src/main/java/source/data/BinanceGateway.java:113-127 | the record for the event's id carries exactly the event's six fields, present before or not; other ids keep their records; keys grow by at most that id |
| `Trades.PutAll` | src/main/java/source/data/BinanceGateway.java:76-78 | defines putting a trade list into a cache: the left fold of put-by-id (`Upsert`) over the list |
| `Trades.FromSnapshot` | src/main/java/source/data/BinanceGateway.java:75-78 | defines the snapshot cache: `PutAll` of the snapshot list into a fresh empty map |
| `Trades.PutAllKeys` | src/main/java/source/data/BinanceGateway.java:75-78 | putting a trade list adds exactly the list's ids to the key set |
| `Trades.PutAllLastWins` | src/main/java/source/data/BinanceGateway.java:75-78 | each id of the list maps to its last occurrence |
| `Trades.PutAllUnmentioned` | src/main/java/source/data/BinanceGateway.java:112-127 | an id no event mentions keeps its record |
| `Trades.SnapshotCache` | src/main/java/source/data/BinanceGateway.java:75-78 | after snapshot loading the keys are exactly the snapshot ids, each mapped to its last occurrence |
| `Trades.SnapshotKeys` | src/main/java/source/data/BinanceGateway.java:75-78 | after snapshot loading the keys are exactly the snapshot ids, for every snapshot including the empty one |
| `Trades.LaterUpsertWins` | src/main/java/source/data/BinanceGateway.java:113-127 | of two events for one id the later wins; re-delivering the earlier one afterwards overwrites back to it |
| `Trades.UpsertIdempotent` | src/main/java/source/data/BinanceGateway.java:113-127 | the same trade event twice has the effect of once |
| `Trades.UpsertsCommute` | src/main/java/source/data/BinanceGateway.java:113-127 | events for different ids commute |
| `Trades.WorkedExample` | src/main/java/source/data/BinanceGateway.java:113-127 | upserting id 7 and then id 7 again with price 1.1 leaves price 1.1 |
| `Gateway.PriceLadder.constructor` | src/main/java/source/data/BinanceGateway.java:54 | a new ladder is empty |
| `Gateway.PriceLadder.Put` | src/main/java/source/data/BinanceGateway.java:152 | put inserts or overwrites one level and changes nothing else |
| `Gateway.PriceLadder.Remove` | src/main/java/source/data/BinanceGateway.java:150 | remove deletes one level, if present, and changes nothing else |
| `Gateway.PriceLadder.FirstEntry` | src/main/java/source/data/BinanceGateway.java:176 | null exactly when the ladder is empty; otherwise a stored level whose price is the maximum key |
| `Gateway.PriceLadder.LastEntry` | src/main/java/source/data/BinanceGateway.java:169 | null exactly when the ladder is empty; otherwise a stored level whose price is the minimum key |
| `Gateway.BinanceGateway.constructor` | src/main/java/source/data/BinanceGateway.java:38-41 | the cursor is the snapshot id, the ladders are the snapshot ladders (distinct objects), the trade cache is the snapshot cache |
| `Gateway.BinanceGateway.LadderOf` | src/main/java/source/data/BinanceGateway.java:54-63 | the put loop builds a fresh ladder equal to the snapshot fold `FromEntries` |
| `Gateway.BinanceGateway.AggTradesCacheOf` | src/main/java/source/data/BinanceGateway.java:75-78 | the put loop builds the snapshot cache `FromSnapshot` |
| `Gateway.BinanceGateway.UpdateOrderBook` | src/main/java/source/data/BinanceGateway.java:143-155 | the remove/put loop leaves the ladder equal to the left fold `ApplyDeltas` of the old ladder over the deltas |
| `Gateway.BinanceGateway.OnDepthEvent` | src/main/java/source/data/BinanceGateway.java:88-101 | the new cursor and ladders are `Depth.OnDepthEvent` of the old ones; the trade cache and the ladder objects are unchanged |
| `Gateway.BinanceGateway.OnAggTradeEvent` | src/main/java/source/data/BinanceGateway.java:112-127 | the new trade cache is `Trades.Upsert` of the old one; the depth cache is unchanged |
| `Gateway.BinanceGateway.BestAsk` | src/main/java/source/data/BinanceGateway.java:168-170 | null exactly when there are no asks; otherwise the ask level with the minimum price |
| `Gateway.BinanceGateway.BestBid` | src/main/java/source/data/BinanceGateway.java:175-177 | null exactly when there are no bids; otherwise the bid level with the maximum price |

## Left out

- REST and websocket clients (`BinanceApiClientFactory`, `getOrderBook`, `getAggTrades`, the websocket client and the callback registration): external I/O. The snapshots and the events are method parameters.
- `eventManager.publish` and the catch-and-print of `InterruptedException`: a foreign messaging component with blocking semantics.
- `printDepthCache` and `toDepthCacheEntryString`: console output.
- Parsing decimal strings with `new BigDecimal(String)`: prices and quantities arrive as numbers. The scale of a `BigDecimal` (`1.0` versus `1.00`) is not modelled, only its value.
- Concurrency between the callback threads and readers of the ladders: the code has no synchronisation. The model applies one event at a time.
- `LocalOrderBook` is not part of this model. It is reduced to the two ladder fields `asks` and `bids`.
- The getters `getAsks`, `getBids`, `getDepthCache` and `getAggTradesCache`: the model reads the fields directly. `getDepthCache` and `getAggTradesCache` return the fields themselves. `getAsks` and `getBids` delegate to `LocalOrderBook`, which is not part of this model. The model assumes they hand out the stored ladders rather than copies. The code relies on this: `updateOrderBook(getAsks(), ...)` at lines 92-93 only has an effect if it holds.
- `AggTrade` and the trade event are library classes that are not part of this model. Only the six fields set at lines 119-124 are modelled. Any other field of the library record is not.
- Aliasing of trade records: a cached record is a value in the model, not a shared object. So the in-place mutation of a record that the snapshot list still references (aliasing) is not captured. The resulting cache contents are the same.
- Java `long` overflow: the code does no arithmetic on ids, so none is modelled. Ids are kept within the `long` range by the `int64` type.
