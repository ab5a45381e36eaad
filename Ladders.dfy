/**
 * One side of the order book (asks or bids) as a value: a map from price to resting quantity.
 * Prices and quantities are exact decimals in the source (BigDecimal compared with compareTo),
 * so they are modelled as `real`: numerically equal decimals are the same key and the same zero.
 */
module Ladders {

  /** An order book entry: a price level and its quantity, as received in a snapshot or a delta. */
  datatype Level = Level(price: real, qty: real)

  type Ladder = map<real, real>

  /** No price level with quantity zero is stored. */
  ghost predicate NoZero(l: Ladder)
  {
    forall p :: p in l ==> l[p] != 0.0
  }

  /** No entry of the list carries quantity zero. */
  ghost predicate NoZeroEntries(es: seq<Level>)
  {
    forall i :: 0 <= i < |es| ==> es[i].qty != 0.0
  }

  /** The prices a list of entries mentions. */
  function Prices(es: seq<Level>): set<real>
  {
    set i | 0 <= i < |es| :: es[i].price
  }

  /** Entry `i` is the last entry of `es` for its price. */
  ghost predicate LastFor(es: seq<Level>, i: int)
    requires 0 <= i < |es|
  {
    forall j :: i < j < |es| ==> es[j].price != es[i].price
  }

  // ---------------------------------------------------------------------------
  // Snapshot loading: a put per entry into an empty ladder, without a zero test.
  // ---------------------------------------------------------------------------

  /** The ladder a snapshot list builds: the left fold of `put` over the entries. */
  function FromEntries(es: seq<Level>): Ladder
  {
    if es == [] then map[]
    else FromEntries(es[..|es| - 1])[es[|es| - 1].price := es[|es| - 1].qty]
  }

  /** A snapshot ladder holds exactly the prices of the list. */
  lemma {:induction false} FromEntriesKeys(es: seq<Level>)
    ensures FromEntries(es).Keys == Prices(es)
  {
    if es != [] {
      var init := es[..|es| - 1];
      FromEntriesKeys(init);
      assert Prices(es) == Prices(init) + {es[|es| - 1].price} by {
        forall p | p in Prices(es) ensures p in Prices(init) + {es[|es| - 1].price} {
          var i :| 0 <= i < |es| && es[i].price == p;
          if i < |es| - 1 { assert init[i] == es[i]; }
        }
        forall p | p in Prices(init) ensures p in Prices(es) {
          var i :| 0 <= i < |init| && init[i].price == p;
          assert es[i] == init[i];
        }
      }
    }
  }

  /** Each price of a snapshot ladder maps to the quantity of its last entry in the list. */
  lemma {:induction false} FromEntriesLastWins(es: seq<Level>, i: int)
    requires 0 <= i < |es| && LastFor(es, i)
    ensures es[i].price in FromEntries(es) && FromEntries(es)[es[i].price] == es[i].qty
  {
    var n := |es| - 1;
    if i < n {
      var init := es[..n];
      assert init[i] == es[i];
      assert LastFor(init, i) by {
        forall j | i < j < |init| ensures init[j].price != init[i].price {
          assert init[j] == es[j];
        }
      }
      FromEntriesLastWins(init, i);
    }
  }

  /** A snapshot without zero quantities yields a ladder without zero levels. */
  lemma {:induction false} FromEntriesNoZero(es: seq<Level>)
    requires NoZeroEntries(es)
    ensures NoZero(FromEntries(es))
  {
    if es != [] {
      var init := es[..|es| - 1];
      assert NoZeroEntries(init) by {
        forall i | 0 <= i < |init| ensures init[i].qty != 0.0 { assert init[i] == es[i]; }
      }
      FromEntriesNoZero(init);
    }
  }

  // ---------------------------------------------------------------------------
  // Delta patching.
  // ---------------------------------------------------------------------------

  /** One delta entry: quantity zero removes the level, any other quantity inserts or overwrites it. */
  function Patch(l: Ladder, d: Level): (r: Ladder)
    ensures d.qty == 0.0 ==> d.price !in r
    ensures d.qty != 0.0 ==> d.price in r && r[d.price] == d.qty
    ensures forall p :: p != d.price ==> (p in r <==> p in l)
    ensures forall p :: p != d.price && p in l ==> r[p] == l[p]
  {
    if d.qty == 0.0 then l - {d.price} else l[d.price := d.qty]
  }

  /** A delta list applied entry by entry, first to last: the left fold of `Patch`. */
  function ApplyDeltas(l: Ladder, ds: seq<Level>): Ladder
  {
    if ds == [] then l
    else Patch(ApplyDeltas(l, ds[..|ds| - 1]), ds[|ds| - 1])
  }

  /** Removing a price that is absent changes nothing. */
  lemma RemoveAbsentIsNoOp(l: Ladder, d: Level)
    requires d.qty == 0.0 && d.price !in l
    ensures Patch(l, d) == l
  {
  }

  /** For a price the delta list mentions, its last entry decides: zero leaves it absent, anything else maps it to that quantity. */
  lemma {:induction false} LastDeltaWins(l: Ladder, ds: seq<Level>, i: int)
    requires 0 <= i < |ds| && LastFor(ds, i)
    ensures ds[i].qty == 0.0 ==> ds[i].price !in ApplyDeltas(l, ds)
    ensures ds[i].qty != 0.0 ==> ds[i].price in ApplyDeltas(l, ds) && ApplyDeltas(l, ds)[ds[i].price] == ds[i].qty
  {
    var n := |ds| - 1;
    if i < n {
      var init := ds[..n];
      assert init[i] == ds[i];
      assert LastFor(init, i) by {
        forall j | i < j < |init| ensures init[j].price != init[i].price {
          assert init[j] == ds[j];
        }
      }
      LastDeltaWins(l, init, i);
    }
  }

  /** A price the delta list does not mention keeps its presence and its quantity. */
  lemma {:induction false} UnmentionedUnchanged(l: Ladder, ds: seq<Level>, p: real)
    requires p !in Prices(ds)
    ensures p in ApplyDeltas(l, ds) <==> p in l
    ensures p in l ==> ApplyDeltas(l, ds)[p] == l[p]
  {
    if ds != [] {
      var init := ds[..|ds| - 1];
      assert Prices(init) <= Prices(ds) by {
        forall q | q in Prices(init) ensures q in Prices(ds) {
          var i :| 0 <= i < |init| && init[i].price == q;
          assert ds[i] == init[i];
        }
      }
      UnmentionedUnchanged(l, init, p);
      assert ds[|ds| - 1].price in Prices(ds);
    }
  }

  /** Patching never introduces a zero level. */
  lemma {:induction false} ApplyDeltasKeepsNoZero(l: Ladder, ds: seq<Level>)
    requires NoZero(l)
    ensures NoZero(ApplyDeltas(l, ds))
  {
    if ds != [] {
      ApplyDeltasKeepsNoZero(l, ds[..|ds| - 1]);
    }
  }

  /** Applying two delta lists in turn is applying their concatenation. */
  lemma {:induction false} ApplyDeltasAppend(l: Ladder, ds: seq<Level>, es: seq<Level>)
    ensures ApplyDeltas(l, ds + es) == ApplyDeltas(ApplyDeltas(l, ds), es)
  {
    if es == [] {
      assert ds + es == ds;
    } else {
      var init := es[..|es| - 1];
      assert (ds + es)[..|ds + es| - 1] == ds + init;
      ApplyDeltasAppend(l, ds, init);
    }
  }

  /** Without zero quantities, patching an empty ladder is the same as loading a snapshot. */
  lemma {:induction false} NonZeroDeltasArePuts(ds: seq<Level>)
    requires NoZeroEntries(ds)
    ensures ApplyDeltas(map[], ds) == FromEntries(ds)
  {
    if ds != [] {
      var init := ds[..|ds| - 1];
      assert NoZeroEntries(init) by {
        forall i | 0 <= i < |init| ensures init[i].qty != 0.0 { assert init[i] == ds[i]; }
      }
      NonZeroDeltasArePuts(init);
    }
  }

  // ---------------------------------------------------------------------------
  // The order of a ladder: a TreeMap built with Comparator.reverseOrder().
  // ---------------------------------------------------------------------------

  ghost predicate StrictlyDescending(s: seq<real>)
  {
    forall i, j :: 0 <= i < j < |s| ==> s[i] > s[j]
  }

  lemma NonEmptyHasElement(keys: set<real>)
    requires keys != {}
    ensures exists x :: x in keys
  {
    if forall x :: x !in keys {
      assert false;
    }
  }

  lemma {:induction false} HighestExists(keys: set<real>)
    requires keys != {}
    ensures exists m :: m in keys && forall k :: k in keys ==> k <= m
  {
    NonEmptyHasElement(keys);
    var x :| x in keys;
    if keys == {x} {
      assert forall k :: k in keys ==> k <= x;
    } else {
      var rest := keys - {x};
      HighestExists(rest);
      var m :| m in rest && forall k :: k in rest ==> k <= m;
      var top := if x <= m then m else x;
      forall k | k in keys ensures k <= top {
        if k != x { assert k in rest; }
      }
      assert top in keys;
    }
  }

  /** The greatest price of a non-empty key set. */
  function Highest(keys: set<real>): (m: real)
    requires keys != {}
    ensures m in keys && forall k :: k in keys ==> k <= m
  {
    HighestExists(keys);
    var m :| m in keys && forall k :: k in keys ==> k <= m;
    m
  }

  /** The keys of a ladder in the reverse (descending) order of its comparator, each once. */
  function Descending(keys: set<real>): (s: seq<real>)
    ensures |s| == |keys|
    ensures forall k :: k in keys <==> k in s
    ensures StrictlyDescending(s)
  {
    if keys == {} then []
    else
      var m := Highest(keys);
      var rest := Descending(keys - {m});
      assert forall j :: 0 <= j < |rest| ==> rest[j] < m by {
        forall j | 0 <= j < |rest| ensures rest[j] < m {
          assert rest[j] in keys - {m};
        }
      }
      [m] + rest
  }

  /** The first element of a strictly descending sequence is its greatest, the last its least. */
  lemma DescendingEnds(s: seq<real>, x: real)
    requires StrictlyDescending(s) && x in s
    ensures s[0] >= x && s[|s| - 1] <= x
  {
  }
}
