/**
 * The gateway object: the depth cache (cursor and two reverse-ordered price ladders) and the
 * aggregated-trade cache, with the snapshot initialisers and the two stream callbacks that
 * update them in place.
 */
module Gateway {
  import opened Common
  import opened Ladders
  import Depth
  import Trades

  /** A price ladder: a TreeMap from price to quantity ordered by Comparator.reverseOrder(). */
  class PriceLadder {
    var levels: Ladder

    constructor ()
      ensures levels == map[]
    {
      levels := map[];
    }

    method Put(price: real, qty: real)
      modifies this
      ensures levels == old(levels)[price := qty]
    {
      levels := levels[price := qty];
    }

    method Remove(price: real)
      modifies this
      ensures levels == old(levels) - {price}
    {
      levels := levels - {price};
    }

    /** The entry first in the reverse order: the highest price, or null when the ladder is empty. */
    function FirstEntry(): (r: Option<Level>)
      reads this
      ensures r.None? <==> levels == map[]
      ensures r.Some? ==> r.value.price in levels && r.value.qty == levels[r.value.price]
      ensures r.Some? ==> forall p :: p in levels ==> p <= r.value.price
    {
      var order := Descending(levels.Keys);
      if order == [] then None
      else
        assert order[0] in levels.Keys;
        assert forall p :: p in levels ==> p <= order[0] by {
          forall p | p in levels ensures p <= order[0] { DescendingEnds(order, p); }
        }
        Some(Level(order[0], levels[order[0]]))
    }

    /** The entry last in the reverse order: the lowest price, or null when the ladder is empty. */
    function LastEntry(): (r: Option<Level>)
      reads this
      ensures r.None? <==> levels == map[]
      ensures r.Some? ==> r.value.price in levels && r.value.qty == levels[r.value.price]
      ensures r.Some? ==> forall p :: p in levels ==> r.value.price <= p
    {
      var order := Descending(levels.Keys);
      if order == [] then None
      else
        var low := order[|order| - 1];
        assert low in levels.Keys;
        assert forall p :: p in levels ==> low <= p by {
          forall p | p in levels ensures low <= p { DescendingEnds(order, p); }
        }
        Some(Level(low, levels[low]))
    }
  }

  class BinanceGateway {
    var lastUpdateId: int64
    var asks: PriceLadder
    var bids: PriceLadder
    var aggTradesCache: Trades.AggTradesCache

    /** The two sides are distinct ladders. */
    ghost predicate Valid()
      reads this
    {
      asks != bids
    }

    /** The depth cache as a value. */
    ghost function Replica(): Depth.DepthCache
      reads this, asks, bids
    {
      Depth.DepthCache(lastUpdateId, asks.levels, bids.levels)
    }

    /** Loads both caches from the snapshots the REST client returned. */
    constructor (book: Depth.OrderBookSnapshot, trades: seq<Trades.AggTrade>)
      ensures Valid() && fresh(asks) && fresh(bids)
      ensures Replica() == Depth.FromSnapshot(book)
      ensures aggTradesCache == Trades.FromSnapshot(trades)
    {
      var askLadder := LadderOf(book.asks);
      var bidLadder := LadderOf(book.bids);
      var cache := AggTradesCacheOf(trades);
      lastUpdateId, asks, bids, aggTradesCache := book.lastUpdateId, askLadder, bidLadder, cache;
    }

    /** A fresh ladder with a put for each snapshot entry, in order; zero quantities are not filtered. */
    static method LadderOf(entries: seq<Level>) returns (ladder: PriceLadder)
      ensures fresh(ladder) && ladder.levels == FromEntries(entries)
    {
      ladder := new PriceLadder();
      for i := 0 to |entries|
        invariant ladder.levels == FromEntries(entries[..i])
      {
        ladder.Put(entries[i].price, entries[i].qty);
        assert entries[..i + 1][..i] == entries[..i];
      }
      assert entries[..|entries|] == entries;
    }

    /** A fresh trade cache with a put for each snapshot trade, keyed by its id, in order. */
    static method AggTradesCacheOf(trades: seq<Trades.AggTrade>) returns (cache: Trades.AggTradesCache)
      ensures cache == Trades.FromSnapshot(trades)
    {
      cache := map[];
      for i := 0 to |trades|
        invariant cache == Trades.PutAll(map[], trades[..i])
      {
        cache := cache[trades[i].aggregatedTradeId := trades[i]];
        assert trades[..i + 1][..i] == trades[..i];
      }
      assert trades[..|trades|] == trades;
    }

    /** Patches a ladder in place: a zero quantity removes the level, anything else puts it. */
    static method UpdateOrderBook(ladder: PriceLadder, deltas: seq<Level>)
      modifies ladder
      ensures ladder.levels == ApplyDeltas(old(ladder.levels), deltas)
    {
      for i := 0 to |deltas|
        invariant ladder.levels == ApplyDeltas(old(ladder.levels), deltas[..i])
      {
        var delta := deltas[i];
        if delta.qty == 0.0 {
          ladder.Remove(delta.price);
        } else {
          ladder.Put(delta.price, delta.qty);
        }
        assert deltas[..i + 1][..i] == deltas[..i];
      }
      assert deltas[..|deltas|] == deltas;
    }

    /** The depth callback: apply the event when it is beyond the cursor, drop it otherwise. */
    method OnDepthEvent(e: Depth.DepthEvent)
      requires Valid()
      modifies this, asks, bids
      ensures Valid() && asks == old(asks) && bids == old(bids)
      ensures Replica() == Depth.OnDepthEvent(old(Replica()), e)
      ensures aggTradesCache == old(aggTradesCache)
    {
      if e.finalUpdateId > lastUpdateId {
        lastUpdateId := e.finalUpdateId;
        UpdateOrderBook(asks, e.asks);
        UpdateOrderBook(bids, e.bids);
      }
    }

    /** The trade callback: fetch the cached record or a new one, set its six fields from the event, put it back. */
    method OnAggTradeEvent(e: Trades.AggTrade)
      modifies this
      ensures aggTradesCache == Trades.Upsert(old(aggTradesCache), e)
      ensures lastUpdateId == old(lastUpdateId) && asks == old(asks) && bids == old(bids)
    {
      var id := e.aggregatedTradeId;
      var record := if id in aggTradesCache then aggTradesCache[id] else Trades.NewAggTrade;
      record := record.(
        aggregatedTradeId := id,
        price := e.price,
        quantity := e.quantity,
        firstBreakdownTradeId := e.firstBreakdownTradeId,
        lastBreakdownTradeId := e.lastBreakdownTradeId,
        isBuyerMaker := e.isBuyerMaker);
      aggTradesCache := aggTradesCache[id := record];
    }

    /** The best ask: the last entry of the reverse-ordered ask ladder, which is its lowest price. */
    function BestAsk(): (r: Option<Level>)
      reads this, asks
      ensures r.None? <==> asks.levels == map[]
      ensures r.Some? ==> r.value.price in asks.levels && r.value.qty == asks.levels[r.value.price]
      ensures r.Some? ==> forall p :: p in asks.levels ==> r.value.price <= p
    {
      asks.LastEntry()
    }

    /** The best bid: the first entry of the reverse-ordered bid ladder, which is its highest price. */
    function BestBid(): (r: Option<Level>)
      reads this, bids
      ensures r.None? <==> bids.levels == map[]
      ensures r.Some? ==> r.value.price in bids.levels && r.value.qty == bids.levels[r.value.price]
      ensures r.Some? ==> forall p :: p in bids.levels ==> p <= r.value.price
    {
      bids.FirstEntry()
    }
  }
}
