/**
 * The aggregated-trade cache as a value: a map from aggregate trade id to the trade record,
 * loaded from a snapshot list and then upserted on every streamed trade event.
 */
module Trades {
  import opened Common

  /** The six fields of an aggregate trade that the cache keeps and every event overwrites. */
  datatype AggTrade = AggTrade(
    aggregatedTradeId: int64,
    price: real,
    quantity: real,
    firstBreakdownTradeId: int64,
    lastBreakdownTradeId: int64,
    isBuyerMaker: bool)

  type AggTradesCache = map<int64, AggTrade>

  /** A record as freshly allocated, before any field is set. */
  const NewAggTrade := AggTrade(0, 0.0, 0.0, 0, 0, false)

  /** The ids a list of trades mentions. */
  function Ids(ts: seq<AggTrade>): set<int64>
  {
    set i | 0 <= i < |ts| :: ts[i].aggregatedTradeId
  }

  /** Trade `i` is the last trade of `ts` with its id. */
  ghost predicate LastFor(ts: seq<AggTrade>, i: int)
    requires 0 <= i < |ts|
  {
    forall j :: i < j < |ts| ==> ts[j].aggregatedTradeId != ts[i].aggregatedTradeId
  }

  /**
   * One trade event: the record for its id takes all of the event's fields, whether the id was
   * cached before or not; every other record stays as it was.
   */
  function Upsert(c: AggTradesCache, e: AggTrade): (r: AggTradesCache)
    ensures r.Keys == c.Keys + {e.aggregatedTradeId}
    ensures r[e.aggregatedTradeId].price == e.price && r[e.aggregatedTradeId].quantity == e.quantity
    ensures r[e.aggregatedTradeId].firstBreakdownTradeId == e.firstBreakdownTradeId
    ensures r[e.aggregatedTradeId].lastBreakdownTradeId == e.lastBreakdownTradeId
    ensures r[e.aggregatedTradeId].isBuyerMaker == e.isBuyerMaker
    ensures r[e.aggregatedTradeId].aggregatedTradeId == e.aggregatedTradeId
    ensures forall k :: k in c && k != e.aggregatedTradeId ==> r[k] == c[k]
  {
    c[e.aggregatedTradeId := e]
  }

  /** A list of trades put into the cache one by one, first to last. */
  function PutAll(c: AggTradesCache, ts: seq<AggTrade>): AggTradesCache
  {
    if ts == [] then c else Upsert(PutAll(c, ts[..|ts| - 1]), ts[|ts| - 1])
  }

  /** The cache a snapshot list builds. */
  function FromSnapshot(ts: seq<AggTrade>): AggTradesCache
  {
    PutAll(map[], ts)
  }

  /** Putting a list adds exactly the list's ids to the key set. */
  lemma {:induction false} PutAllKeys(c: AggTradesCache, ts: seq<AggTrade>)
    ensures PutAll(c, ts).Keys == c.Keys + Ids(ts)
  {
    if ts != [] {
      var init := ts[..|ts| - 1];
      PutAllKeys(c, init);
      assert Ids(ts) == Ids(init) + {ts[|ts| - 1].aggregatedTradeId} by {
        forall k | k in Ids(ts) ensures k in Ids(init) + {ts[|ts| - 1].aggregatedTradeId} {
          var i :| 0 <= i < |ts| && ts[i].aggregatedTradeId == k;
          if i < |init| { assert init[i] == ts[i]; }
        }
        forall k | k in Ids(init) ensures k in Ids(ts) {
          var i :| 0 <= i < |init| && init[i].aggregatedTradeId == k;
          assert ts[i] == init[i];
        }
      }
    }
  }

  /** Each id of the list maps to its last occurrence in the list. */
  lemma {:induction false} PutAllLastWins(c: AggTradesCache, ts: seq<AggTrade>, i: int)
    requires 0 <= i < |ts| && LastFor(ts, i)
    ensures ts[i].aggregatedTradeId in PutAll(c, ts) && PutAll(c, ts)[ts[i].aggregatedTradeId] == ts[i]
  {
    var n := |ts| - 1;
    if i < n {
      var init := ts[..n];
      assert init[i] == ts[i];
      assert LastFor(init, i) by {
        forall j | i < j < |init| ensures init[j].aggregatedTradeId != init[i].aggregatedTradeId {
          assert init[j] == ts[j];
        }
      }
      PutAllLastWins(c, init, i);
    }
  }

  /** An id the list does not mention keeps its record. */
  lemma {:induction false} PutAllUnmentioned(c: AggTradesCache, ts: seq<AggTrade>, k: int64)
    requires k in c && k !in Ids(ts)
    ensures k in PutAll(c, ts) && PutAll(c, ts)[k] == c[k]
  {
    if ts != [] {
      var init := ts[..|ts| - 1];
      assert Ids(init) <= Ids(ts) by {
        forall q | q in Ids(init) ensures q in Ids(ts) {
          var i :| 0 <= i < |init| && init[i].aggregatedTradeId == q;
          assert ts[i] == init[i];
        }
      }
      PutAllUnmentioned(c, init, k);
      assert ts[|ts| - 1].aggregatedTradeId in Ids(ts);
    }
  }

  /** After snapshot loading the cache keys are exactly the snapshot's ids, for any snapshot, the empty one included. */
  lemma SnapshotKeys(ts: seq<AggTrade>)
    ensures FromSnapshot(ts).Keys == Ids(ts)
  {
    PutAllKeys(map[], ts);
  }

  /** After snapshot loading the cache keys are exactly the snapshot's ids, each mapped to its last occurrence. */
  lemma SnapshotCache(ts: seq<AggTrade>, i: int)
    requires 0 <= i < |ts| && LastFor(ts, i)
    ensures FromSnapshot(ts).Keys == Ids(ts)
    ensures FromSnapshot(ts)[ts[i].aggregatedTradeId] == ts[i]
  {
    SnapshotKeys(ts);
    PutAllLastWins(map[], ts, i);
  }

  /** Two events for the same id: the later one wins outright, without any ordering protection. */
  lemma LaterUpsertWins(c: AggTradesCache, u1: AggTrade, u2: AggTrade)
    requires u1.aggregatedTradeId == u2.aggregatedTradeId
    ensures Upsert(Upsert(c, u1), u2) == Upsert(c, u2)
    ensures Upsert(Upsert(Upsert(c, u1), u2), u1) == Upsert(c, u1)
  {
  }

  /** Delivering the same trade event twice has the effect of delivering it once. */
  lemma UpsertIdempotent(c: AggTradesCache, u: AggTrade)
    ensures Upsert(Upsert(c, u), u) == Upsert(c, u)
  {
  }

  /** Events for different ids commute. */
  lemma UpsertsCommute(c: AggTradesCache, u1: AggTrade, u2: AggTrade)
    requires u1.aggregatedTradeId != u2.aggregatedTradeId
    ensures Upsert(Upsert(c, u1), u2) == Upsert(Upsert(c, u2), u1)
  {
  }

  /** A worked example: upserting id 7 twice keeps the second price. */
  lemma WorkedExample()
    ensures var u1 := AggTrade(7, 1.0, 2.0, 0, 0, false);
            var u2 := AggTrade(7, 1.1, 2.0, 0, 0, false);
            && Upsert(map[], u1)[7] == u1
            && Upsert(Upsert(map[], u1), u2)[7].price == 1.1
  {
  }
}
