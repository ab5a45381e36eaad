/**
 * The depth (order-book) replica as a value: the update-id cursor and the two ladders,
 * a snapshot that seeds it, and the rule that applies or drops one depth event.
 */
module Depth {
  import opened Common
  import opened Ladders

  /** A REST order-book snapshot: its last update id and the ask and bid entries. */
  datatype OrderBookSnapshot = OrderBookSnapshot(lastUpdateId: int64, asks: seq<Level>, bids: seq<Level>)

  /** A streamed depth event: its final update id and the ask and bid deltas. */
  datatype DepthEvent = DepthEvent(finalUpdateId: int64, asks: seq<Level>, bids: seq<Level>)

  /** The replica: cursor plus the two ladders. */
  datatype DepthCache = DepthCache(lastUpdateId: int64, asks: Ladder, bids: Ladder)

  ghost predicate NoZeroLevels(d: DepthCache)
  {
    NoZero(d.asks) && NoZero(d.bids)
  }

  /** The replica a snapshot seeds: its id becomes the cursor, each list is put into an empty ladder. */
  function FromSnapshot(book: OrderBookSnapshot): DepthCache
  {
    DepthCache(book.lastUpdateId, FromEntries(book.asks), FromEntries(book.bids))
  }

  /** An event is applied only when its final update id is beyond the cursor; otherwise it is dropped. */
  function OnDepthEvent(d: DepthCache, e: DepthEvent): DepthCache
  {
    if e.finalUpdateId > d.lastUpdateId then
      DepthCache(e.finalUpdateId, ApplyDeltas(d.asks, e.asks), ApplyDeltas(d.bids, e.bids))
    else
      d
  }

  /** A stream of events delivered one at a time, first to last. */
  function OnDepthEvents(d: DepthCache, es: seq<DepthEvent>): DepthCache
  {
    if es == [] then d else OnDepthEvent(OnDepthEvents(d, es[..|es| - 1]), es[|es| - 1])
  }

  /** A stale event leaves the cursor and both ladders as they were. */
  lemma StaleEventIgnored(d: DepthCache, e: DepthEvent)
    requires e.finalUpdateId <= d.lastUpdateId
    ensures OnDepthEvent(d, e) == d
  {
  }

  /**
   * A fresh event moves the cursor to exactly its final update id, which is strictly greater
   * than before, and patches asks only from its ask deltas and bids only from its bid deltas.
   */
  lemma FreshEventApplied(d: DepthCache, e: DepthEvent)
    requires e.finalUpdateId > d.lastUpdateId
    ensures OnDepthEvent(d, e).lastUpdateId == e.finalUpdateId > d.lastUpdateId
    ensures OnDepthEvent(d, e).asks == ApplyDeltas(d.asks, e.asks)
    ensures OnDepthEvent(d, e).bids == ApplyDeltas(d.bids, e.bids)
  {
  }

  /** The cursor never decreases, and whenever the replica changes the cursor strictly increased. */
  lemma CursorNeverDecreases(d: DepthCache, e: DepthEvent)
    ensures OnDepthEvent(d, e).lastUpdateId >= d.lastUpdateId
    ensures OnDepthEvent(d, e) != d ==> OnDepthEvent(d, e).lastUpdateId > d.lastUpdateId
  {
  }

  /** Delivering the same event twice in a row has the effect of delivering it once. */
  lemma DepthEventIdempotent(d: DepthCache, e: DepthEvent)
    ensures OnDepthEvent(OnDepthEvent(d, e), e) == OnDepthEvent(d, e)
  {
  }

  /** An applied event keeps a replica free of zero levels. */
  lemma OnDepthEventKeepsNoZero(d: DepthCache, e: DepthEvent)
    requires NoZeroLevels(d)
    ensures NoZeroLevels(OnDepthEvent(d, e))
  {
    ApplyDeltasKeepsNoZero(d.asks, e.asks);
    ApplyDeltasKeepsNoZero(d.bids, e.bids);
  }

  /** A replica seeded from a snapshot without zero quantities never holds a zero level, whatever events follow. */
  lemma {:induction false} OnDepthEventsKeepNoZero(book: OrderBookSnapshot, es: seq<DepthEvent>)
    requires NoZeroEntries(book.asks) && NoZeroEntries(book.bids)
    ensures NoZeroLevels(OnDepthEvents(FromSnapshot(book), es))
  {
    if es == [] {
      FromEntriesNoZero(book.asks);
      FromEntriesNoZero(book.bids);
    } else {
      OnDepthEventsKeepNoZero(book, es[..|es| - 1]);
      OnDepthEventKeepsNoZero(OnDepthEvents(FromSnapshot(book), es[..|es| - 1]), es[|es| - 1]);
    }
  }

  /**
   * After any stream of events, the cursor is the greatest of the initial cursor and the events'
   * final update ids: it is at least each of them and equal to one of them.
   */
  lemma {:induction false} CursorIsHighestId(d: DepthCache, es: seq<DepthEvent>)
    ensures OnDepthEvents(d, es).lastUpdateId >= d.lastUpdateId
    ensures forall i :: 0 <= i < |es| ==> OnDepthEvents(d, es).lastUpdateId >= es[i].finalUpdateId
    ensures OnDepthEvents(d, es).lastUpdateId == d.lastUpdateId
         || exists i :: 0 <= i < |es| && OnDepthEvents(d, es).lastUpdateId == es[i].finalUpdateId
  {
    if es != [] {
      var init := es[..|es| - 1];
      CursorIsHighestId(d, init);
      var r := OnDepthEvents(d, es);
      forall i | 0 <= i < |es| ensures r.lastUpdateId >= es[i].finalUpdateId {
        if i < |init| { assert es[i] == init[i]; }
      }
      if r.lastUpdateId != d.lastUpdateId {
        if r.lastUpdateId == es[|es| - 1].finalUpdateId {
        } else {
          var i :| 0 <= i < |init| && OnDepthEvents(d, init).lastUpdateId == init[i].finalUpdateId;
          assert es[i] == init[i];
        }
      }
    }
  }

  /** The final update ids of a stream, in delivery order, each beyond the one before. */
  ghost predicate IncreasingIds(c: int64, es: seq<DepthEvent>)
  {
    (forall i :: 0 <= i < |es| ==> es[i].finalUpdateId > c)
    && forall i, j :: 0 <= i < j < |es| ==> es[i].finalUpdateId < es[j].finalUpdateId
  }

  /** All ask deltas of a stream, in order. */
  function AllAsks(es: seq<DepthEvent>): seq<Level>
  {
    if es == [] then [] else AllAsks(es[..|es| - 1]) + es[|es| - 1].asks
  }

  /** All bid deltas of a stream, in order. */
  function AllBids(es: seq<DepthEvent>): seq<Level>
  {
    if es == [] then [] else AllBids(es[..|es| - 1]) + es[|es| - 1].bids
  }

  /**
   * When the final update ids increase and start beyond the cursor, every event is applied:
   * each ladder is the fold of all that side's deltas onto the starting ladder, in order,
   * and the cursor is the last event's id.
   */
  lemma {:induction false} IncreasingEventsAllApplied(d: DepthCache, es: seq<DepthEvent>)
    requires IncreasingIds(d.lastUpdateId, es)
    ensures OnDepthEvents(d, es).asks == ApplyDeltas(d.asks, AllAsks(es))
    ensures OnDepthEvents(d, es).bids == ApplyDeltas(d.bids, AllBids(es))
    ensures OnDepthEvents(d, es).lastUpdateId == if es == [] then d.lastUpdateId else es[|es| - 1].finalUpdateId
  {
    if es != [] {
      var init := es[..|es| - 1];
      var last := es[|es| - 1];
      assert IncreasingIds(d.lastUpdateId, init) by {
        forall i | 0 <= i < |init| ensures init[i].finalUpdateId > d.lastUpdateId { assert init[i] == es[i]; }
        forall i, j | 0 <= i < j < |init| ensures init[i].finalUpdateId < init[j].finalUpdateId {
          assert init[i] == es[i] && init[j] == es[j];
        }
      }
      IncreasingEventsAllApplied(d, init);
      var mid := OnDepthEvents(d, init);
      assert last.finalUpdateId > mid.lastUpdateId by {
        if init != [] { assert init[|init| - 1] == es[|es| - 2]; }
      }
      ApplyDeltasAppend(d.asks, AllAsks(init), last.asks);
      ApplyDeltasAppend(d.bids, AllBids(init), last.bids);
    }
  }

  /**
   * A worked example: cursor 100, bids {10.0: 5}, asks {10.5: 3}; an event with id 99
   * is dropped; an event with id 101 that zeroes bid 10.0 and sets ask 10.5 to 2 empties the bids,
   * leaves asks {10.5: 2} and moves the cursor to 101.
   */
  lemma WorkedExample()
    ensures var d := FromSnapshot(OrderBookSnapshot(100, [Level(10.5, 3.0)], [Level(10.0, 5.0)]));
            && OnDepthEvent(d, DepthEvent(99, [Level(10.5, 7.0)], [])) == d
            && OnDepthEvent(d, DepthEvent(101, [Level(10.5, 2.0)], [Level(10.0, 0.0)]))
               == DepthCache(101, map[10.5 := 2.0], map[])
  {
  }
}
