/** The cursor over a coins cache: it lists the base cursor's coins that the cache does
    not mention, then the cache's own unspent coins. */
module CoinsCursor {
  import opened Prelude
  import opened CoinsModel

  type Item = (OutPoint, Coin)

  /** What a base cursor contributes: unspent coins the cache has no entry for. */
  function BaseKept(items: seq<Item>, cache: CoinsMap): seq<Item> {
    if items == [] then []
    else (if items[0].0 !in cache && !items[0].1.IsSpent() then [items[0]] else []) + BaseKept(items[1..], cache)
  }

  /** What the cache contributes, in its iteration order. */
  function CacheKept(order: seq<OutPoint>, cache: CoinsMap): seq<Item>
    requires forall k :: k in order ==> k in cache
  {
    if order == [] then []
    else (if !cache[order[0]].coin.IsSpent() then [(order[0], cache[order[0]].coin)] else []) + CacheKept(order[1..], cache)
  }

  ghost predicate Enumerates(order: seq<OutPoint>, keys: set<OutPoint>) {
    && (forall i, j :: 0 <= i < j < |order| ==> order[i] != order[j])
    && (forall k :: k in order <==> k in keys)
  }

  /** `items` names every outpoint at most once and its unspent items are exactly `m`. */
  ghost predicate Lists(items: seq<Item>, m: UtxoSet) {
    && (forall i, j :: 0 <= i < j < |items| ==> items[i].0 != items[j].0)
    && (forall i :: 0 <= i < |items| && !items[i].1.IsSpent() ==> items[i].0 in m && m[items[i].0] == items[i].1)
    && (forall k :: k in m ==> !m[k].IsSpent() && (k, m[k]) in items)
  }

  lemma {:induction false} BaseKeptMembers(items: seq<Item>, cache: CoinsMap, x: Item)
    ensures x in BaseKept(items, cache) <==> x in items && x.0 !in cache && !x.1.IsSpent()
  {
    if items != [] {
      BaseKeptMembers(items[1..], cache, x);
      assert items == [items[0]] + items[1..];
    }
  }

  lemma {:induction false} CacheKeptMembers(order: seq<OutPoint>, cache: CoinsMap, x: Item)
    requires forall k :: k in order ==> k in cache
    ensures x in CacheKept(order, cache) <==> x.0 in order && x.1 == cache[x.0].coin && !x.1.IsSpent()
  {
    if order != [] {
      CacheKeptMembers(order[1..], cache, x);
      assert order == [order[0]] + order[1..];
    }
  }

  lemma BaseKeptSkip(items: seq<Item>, i: nat, cache: CoinsMap)
    requires i < |items| && (items[i].0 in cache || items[i].1.IsSpent())
    ensures BaseKept(items[i..], cache) == BaseKept(items[i + 1..], cache)
  {
    assert items[i..][1..] == items[i + 1..];
  }

  lemma BaseKeptTake(items: seq<Item>, i: nat, cache: CoinsMap)
    requires i < |items| && items[i].0 !in cache && !items[i].1.IsSpent()
    ensures BaseKept(items[i..], cache) == [items[i]] + BaseKept(items[i + 1..], cache)
  {
    assert items[i..][1..] == items[i + 1..];
  }

  predicate DistinctKeys(items: seq<Item>) {
    forall i, j :: 0 <= i < j < |items| ==> items[i].0 != items[j].0
  }

  lemma {:induction false} BaseKeptDistinct(items: seq<Item>, cache: CoinsMap)
    requires DistinctKeys(items)
    ensures DistinctKeys(BaseKept(items, cache))
  {
    if items != [] {
      var rest := BaseKept(items[1..], cache);
      BaseKeptDistinct(items[1..], cache);
      forall j | 0 <= j < |rest| ensures rest[j].0 != items[0].0 {
        BaseKeptMembers(items[1..], cache, rest[j]);
        var i :| 0 <= i < |items[1..]| && items[1..][i] == rest[j];
        assert items[i + 1] == rest[j];
      }
    }
  }

  lemma {:induction false} CacheKeptDistinct(order: seq<OutPoint>, cache: CoinsMap)
    requires forall k :: k in order ==> k in cache
    requires forall i, j :: 0 <= i < j < |order| ==> order[i] != order[j]
    ensures DistinctKeys(CacheKept(order, cache))
  {
    if order != [] {
      var rest := CacheKept(order[1..], cache);
      CacheKeptDistinct(order[1..], cache);
      forall j | 0 <= j < |rest| ensures rest[j].0 != order[0] {
        CacheKeptMembers(order[1..], cache, rest[j]);
      }
    }
  }

  /** A listing of the base view, filtered and followed by the cache, lists the cached view. */
  lemma CursorListsOverlay(items: seq<Item>, below: UtxoSet, order: seq<OutPoint>, cache: CoinsMap)
    requires Lists(items, below) && Enumerates(order, cache.Keys)
    ensures Lists(BaseKept(items, cache) + CacheKept(order, cache), Overlay(below, cache))
    ensures forall x :: x in BaseKept(items, cache) + CacheKept(order, cache) ==> !x.1.IsSpent()
  {
    var a, b, m := BaseKept(items, cache), CacheKept(order, cache), Overlay(below, cache);
    BaseKeptDistinct(items, cache);
    CacheKeptDistinct(order, cache);
    forall x: Item
      ensures x in a <==> x in items && x.0 !in cache && !x.1.IsSpent()
      ensures x in b <==> x.0 in order && x.1 == cache[x.0].coin && !x.1.IsSpent()
    {
      BaseKeptMembers(items, cache, x);
      CacheKeptMembers(order, cache, x);
    }
    forall i | 0 <= i < |a| ensures a[i].0 !in cache { assert a[i] in a; }
    forall i | 0 <= i < |b| ensures b[i].0 in cache { assert b[i] in b; }
    forall i | 0 <= i < |a + b| ensures (a + b)[i].0 in m && m[(a + b)[i].0] == (a + b)[i].1 {
      assert (a + b)[i] in a || (a + b)[i] in b;
    }
    forall k | k in m ensures (k, m[k]) in a + b {
      if k in cache {
        assert (k, m[k]) in b;
      } else {
        assert (k, m[k]) in a;
      }
    }
  }

  /** A listing of the whole stack, given each level's iteration order (top level last). */
  ghost function StackListing(v: CoinsView, dbItems: seq<Item>, orders: seq<seq<OutPoint>>): seq<Item>
    requires OrdersFit(v, orders)
  {
    match v
    case Database(_) => dbItems
    case Cached(base, m, _) =>
      var n := |orders| - 1;
      BaseKept(StackListing(base, dbItems, orders[..n]), m) + CacheKept(orders[n], m)
  }

  ghost predicate OrdersFit(v: CoinsView, orders: seq<seq<OutPoint>>) {
    match v
    case Database(_) => orders == []
    case Cached(base, m, _) =>
      |orders| > 0 && Enumerates(orders[|orders| - 1], m.Keys) && OrdersFit(base, orders[..|orders| - 1])
  }

  /** Cursors stacked to any depth list exactly the unspent coins, each outpoint once; with at least
      one cache on the database nothing else is listed. */
  lemma {:induction false} StackCursorListsView(v: CoinsView, dbItems: seq<Item>, orders: seq<seq<OutPoint>>,
                                                bottom: CoinsView)
    requires OrdersFit(v, orders) && bottom == Bottom(v) && Lists(dbItems, Unspent(bottom))
    ensures Lists(StackListing(v, dbItems, orders), Unspent(v))
    ensures v.Cached? ==> forall x :: x in StackListing(v, dbItems, orders) ==> !x.1.IsSpent()
    decreases v
  {
    match v
    case Database(_) =>
    case Cached(base, m, _) =>
      var n := |orders| - 1;
      StackCursorListsView(base, dbItems, orders[..n], bottom);
      CursorListsOverlay(StackListing(base, dbItems, orders[..n]), Unspent(base), orders[n], m);
  }

  function Bottom(v: CoinsView): CoinsView {
    match v
    case Database(_) => v
    case Cached(base, _, _) => Bottom(base)
  }

  class CacheCursor {
    const baseItems: seq<Item>       // everything the base cursor yields; empty when there is none
    const cache: CoinsMap
    const order: seq<OutPoint>       // the cache map's iteration order
    var basePos: nat
    var cachePos: nat
    var cachePhase: bool
    var valid: bool
    var key: OutPoint
    var coin: Coin

    ghost predicate InRange()
      reads this
    {
      basePos <= |baseItems| && cachePos <= |order| && Enumerates(order, cache.Keys)
    }

    // Items the two scans have not reached yet.
    ghost function Pending(): seq<Item>
      requires InRange()
      reads this
    {
      (if cachePhase then [] else BaseKept(baseItems[basePos..], cache)) + CacheKept(order[cachePos..], cache)
    }

    ghost predicate Ok()
      reads this
    {
      && InRange()
      && (valid && !cachePhase ==>
            && basePos < |baseItems| && baseItems[basePos] == (key, coin)
            && key !in cache && !coin.IsSpent())
      && (!valid ==> Pending() == [])
    }

    /** The items still to come, the current one first. */
    ghost function Remaining(): seq<Item>
      requires Ok()
      reads this
    {
      if valid && cachePhase then [(key, coin)] + Pending() else Pending()
    }

    constructor (baseItems: seq<Item>, cache: CoinsMap, order: seq<OutPoint>)
      requires Enumerates(order, cache.Keys)
      ensures Ok() && Remaining() == BaseKept(baseItems, cache) + CacheKept(order, cache)
    {
      this.baseItems, this.cache, this.order := baseItems, cache, order;
      basePos, cachePos, cachePhase, valid := 0, 0, false, false;
      key, coin := OutPoint(0, 0), EMPTY_COIN;
      new;
      assert baseItems[0..] == baseItems && order[0..] == order;
      Advance();
    }

    method Advance()
      requires InRange()
      modifies this
      ensures Ok() && Remaining() == old(Pending())
      ensures valid <==> Remaining() != []
      ensures valid ==> Remaining()[0] == (key, coin)
    {
      valid := false;
      ScanBase();
      if !valid {
        cachePhase := true;
        ScanCache();
      }
    }

    // The first loop of Advance.
    method ScanBase()
      requires InRange() && !valid
      modifies this
      ensures InRange() && Pending() == old(Pending()) && cachePhase == old(cachePhase)
      ensures valid ==> !cachePhase && basePos < |baseItems| && baseItems[basePos] == (key, coin) && key !in cache && !coin.IsSpent()
      ensures !valid && !cachePhase ==> basePos == |baseItems|
    {
      ghost var kept := BaseKept(baseItems[basePos..], cache);
      while !cachePhase && basePos < |baseItems|
        invariant basePos <= |baseItems| && !valid && BaseKept(baseItems[basePos..], cache) == kept
        invariant cachePos == old(cachePos) && cachePhase == old(cachePhase)
        invariant cachePhase ==> basePos == old(basePos)
        decreases |baseItems| - basePos
      {
        var item := baseItems[basePos];
        if item.0 !in cache && !item.1.IsSpent() {
          key, coin, valid := item.0, item.1, true;
          return;
        }
        BaseKeptSkip(baseItems, basePos, cache);
        basePos := basePos + 1;
      }
    }

    // The second loop of Advance.
    method ScanCache()
      requires InRange() && !valid && cachePhase
      modifies this
      ensures InRange() && cachePhase
      ensures old(Pending()) == (if valid then [(key, coin)] + Pending() else []) && (!valid ==> Pending() == [])
    {
      ghost var pending := Pending();
      while cachePos < |order|
        invariant InRange() && !valid && cachePhase && Pending() == pending
        decreases |order| - cachePos
      {
        var k := order[cachePos];
        assert order[cachePos..][1..] == order[cachePos + 1..];
        cachePos := cachePos + 1;
        if !cache[k].coin.IsSpent() {
          key, coin, valid := k, cache[k].coin, true;
          return;
        }
      }
    }

    method Next()
      requires Ok()
      modifies this
      ensures Ok() && Remaining() == if old(valid) then old(Remaining())[1..] else []
      ensures valid <==> Remaining() != []
      ensures valid ==> Remaining()[0] == (key, coin)
    {
      if !valid {
        return;
      }
      if !cachePhase {
        StepBase();
      }
      Advance();
    }

    // Leaves the current base item behind.
    method StepBase()
      requires Ok() && valid && !cachePhase
      modifies this`basePos
      ensures InRange() && old(Pending()) == [(key, coin)] + Pending()
    {
      BaseKeptTake(baseItems, basePos, cache);
      basePos := basePos + 1;
    }
  }

  /** Point lookup through stacked cursors agrees with the view. */
  function ValueAt(v: CoinsView, op: OutPoint): (r: Option<Coin>)
    ensures r == if op in Unspent(v) then Some(Unspent(v)[op]) else None
  {
    match v
    case Database(coins) => if op in coins && !coins[op].IsSpent() then Some(coins[op]) else None
    case Cached(base, m, _) =>
      if op in m then if m[op].coin.IsSpent() then None else Some(m[op].coin)
      else ValueAt(base, op)
  }
}
