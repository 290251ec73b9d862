/** The write-back coins cache over a database or over another cache. Every method
    keeps the flag discipline of the whole stack below it and is specified by what
    it does to the plain map of unspent coins. */
module CoinsCache {
  import opened CoinsModel

  /** The database at the bottom of a stack. It may remember spent coins. */
  class CoinsDB {
    var coins: map<OutPoint, Coin>

    constructor (coins: map<OutPoint, Coin>)
      ensures this.coins == coins
    {
      this.coins := coins;
    }

    // `keepEmpty` chooses which spent coins stay in the database as empty records.
    method BatchWrite(mapCoins: CoinsMap, erase: bool, keepEmpty: set<OutPoint>) returns (rest: CoinsMap)
      requires FlagsOk(mapCoins, Unspent(Database(coins)))
      modifies this
      ensures Unspent(Database(coins)) == Overlay(old(Unspent(Database(coins))), mapCoins)
      ensures rest == if erase then map[] else mapCoins
    {
      rest := mapCoins;
      var todo := mapCoins.Keys;
      ghost var was := coins;
      while todo != {}
        invariant todo <= mapCoins.Keys
        invariant forall op :: op in mapCoins.Keys - todo && mapCoins[op].isDirty ==>
          if mapCoins[op].coin.IsSpent() then op in coins ==> coins[op].IsSpent()
          else op in coins && coins[op] == mapCoins[op].coin
        invariant forall op :: op in todo || op !in mapCoins || !mapCoins[op].isDirty ==>
          (op in coins <==> op in was) && (op in coins ==> coins[op] == was[op])
        invariant rest == if erase then map op | op in todo :: mapCoins[op] else mapCoins
        decreases todo
      {
        var op :| op in todo;
        var e := mapCoins[op];
        if e.isDirty {
          if e.coin.IsSpent() && op !in keepEmpty {
            coins := coins - {op};
          } else {
            coins := coins[op := e.coin];
          }
        }
        todo := todo - {op};
        if erase {
          rest := rest - {op};
        }
      }
      DatabaseShowsChild(mapCoins, was, coins);
    }
  }

  lemma DatabaseShowsChild(child: CoinsMap, was: map<OutPoint, Coin>, now: map<OutPoint, Coin>)
    requires FlagsOk(child, Unspent(Database(was)))
    requires forall op :: op in child && child[op].isDirty ==>
      if child[op].coin.IsSpent() then op in now ==> now[op].IsSpent()
      else op in now && now[op] == child[op].coin
    requires forall op :: op !in child || !child[op].isDirty ==>
      (op in now <==> op in was) && (op in now ==> now[op] == was[op])
    ensures Unspent(Database(now)) == Overlay(Unspent(Database(was)), child)
  {
    var l, r := Unspent(Database(now)), Overlay(Unspent(Database(was)), child);
    forall op
      ensures op in l <==> op in r
      ensures op in l ==> l[op] == r[op]
    {
      if op in child { assert FlagOk(child[op], op, Unspent(Database(was))); }
    }
    assert l.Keys == r.Keys;
  }

  class CoinsViewCache {
    const db: CoinsDB
    const base: CoinsViewCache?  // null: this cache sits directly on the database
    ghost const depth: nat
    ghost const caches: set<CoinsViewCache>  // this cache and every cache below it
    var cacheCoins: CoinsMap
    var cachedCoinsUsage: int

    ghost predicate Linked()
      decreases depth
    {
      if base == null then caches == {this}
      else && depth == base.depth + 1 && base.db == db && base.Linked()
           && caches == {this} + base.caches && this !in base.caches
    }

    /** The stack from this cache down, as a value. */
    ghost function Model(): CoinsView
      requires Linked()
      reads caches, db
      decreases depth
    {
      Cached(if base == null then Database(db.coins) else base.Model(), cacheCoins, cachedCoinsUsage)
    }

    ghost predicate Valid()
      reads caches, db
    {
      Linked() && Disciplined(Model())
    }

    constructor OverDatabase(db: CoinsDB)
      ensures Valid() && base == null && this.db == db && cacheCoins == map[]
      ensures Unspent(Model()) == Unspent(Database(db.coins))
    {
      this.db := db;
      base := null;
      depth := 0;
      caches := {this};
      cacheCoins := map[];
      cachedCoinsUsage := 0;
    }

    constructor OverCache(base: CoinsViewCache)
      requires base.Valid()
      ensures Valid() && this.base == base && db == base.db && cacheCoins == map[]
      ensures base.Model() == old(base.Model()) && Unspent(Model()) == Unspent(base.Model())
    {
      this.base := base;
      db := base.db;
      depth := base.depth + 1;
      caches := {this} + base.caches;
      cacheCoins := map[];
      cachedCoinsUsage := 0;
    }

    method FetchCoin(op: OutPoint) returns (present: bool)
      requires Valid()
      modifies caches
      ensures Valid() && SameViews(old(Model()), Model())
      ensures present <==> op in cacheCoins
      ensures !present ==> op !in Unspent(Model())
      decreases depth, 0
    {
      if op in cacheCoins {
        SameViewsReflexive(Model());
        return true;
      }
      var found, tmp;
      ghost var before := Model();
      if base == null {
        found, tmp := op in db.coins, if op in db.coins then db.coins[op] else EMPTY_COIN;
        SameViewsReflexive(before.base);
      } else {
        found, tmp := base.GetCoin(op);
      }
      ghost var v := Model();
      assert SameViews(before.base, v.base) && Disciplined(v.base);
      if !found {
        return false;
      }
      FetchedEntry(v, op, tmp);
      StoreEntry(op, Entry(tmp, false, tmp.IsSpent()));
      return true;
    }

    method GetCoin(op: OutPoint) returns (found: bool, coin: Coin)
      requires Valid()
      modifies caches
      ensures Valid() && SameViews(old(Model()), Model())
      ensures found <==> op in Unspent(Model())
      ensures found ==> coin == Unspent(Model())[op] && !coin.IsSpent()
      decreases depth, 1
    {
      var present := FetchCoin(op);
      if present {
        coin := cacheCoins[op].coin;
        found := !coin.IsSpent();
      } else {
        found, coin := false, EMPTY_COIN;
      }
    }

    method HaveCoin(op: OutPoint) returns (have: bool)
      requires Valid()
      modifies caches
      ensures Valid() && SameViews(old(Model()), Model())
      ensures have <==> op in Unspent(Model())
    {
      var present := FetchCoin(op);
      have := present && !cacheCoins[op].coin.IsSpent();
    }

    method AccessCoin(op: OutPoint) returns (coin: Coin)
      requires Valid()
      modifies caches
      ensures Valid() && SameViews(old(Model()), Model())
      ensures if coin.IsSpent() then op !in Unspent(Model()) else op in Unspent(Model()) && coin == Unspent(Model())[op]
    {
      var present := FetchCoin(op);
      coin := if present then cacheCoins[op].coin else EMPTY_COIN;
    }

    /** Adding always shows the coin; it keeps the discipline exactly when the caller may
        overwrite or no unspent coin was there. The throwing path has already lowered the
        memory counter. */
    method AddCoin(op: OutPoint, coin: Coin, possibleOverwrite: bool) returns (threw: bool)
      requires Valid() && !coin.IsSpent()
      modifies this
      ensures Model().base == old(Model().base)
      ensures threw <==> !coin.IsUnspendable() && !possibleOverwrite &&
                         op in old(cacheCoins) && !old(cacheCoins)[op].coin.IsSpent()
      ensures threw ==> cacheCoins == old(cacheCoins) &&
                        cachedCoinsUsage == old(cachedCoinsUsage) - old(cacheCoins)[op].coin.DynamicMemoryUsage()
      ensures coin.IsUnspendable() ==> Model() == old(Model())
      ensures !threw && !coin.IsUnspendable() ==> Unspent(Model()) == old(Unspent(Model()))[op := coin]
      ensures !threw ==> (Valid() <==> coin.IsUnspendable() || possibleOverwrite || op !in old(Unspent(Model())))
    {
      if coin.IsUnspendable() {
        return false;
      }
      ghost var v := Model();
      var entry := if op in cacheCoins then cacheCoins[op] else Entry(EMPTY_COIN, false, false);
      var nowFresh := false;
      if !possibleOverwrite {
        if !entry.coin.IsSpent() {
          cachedCoinsUsage := cachedCoinsUsage - entry.coin.DynamicMemoryUsage();
          return true;
        }
        nowFresh := !entry.isDirty;
      }
      var added := Entry(coin, true, entry.isFresh || nowFresh);
      AddContract(v, op, possibleOverwrite);
      AddedEntry(v, op, added);
      StoreEntry(op, added);
      return false;
    }

    // Replaces one entry and recounts its memory.
    method StoreEntry(op: OutPoint, e: Entry)
      requires Linked()
      modifies this
      ensures Model() == AfterPut(old(Model()), op, e)
    {
      if op in cacheCoins {
        cachedCoinsUsage := cachedCoinsUsage - cacheCoins[op].coin.DynamicMemoryUsage();
      }
      cacheCoins := cacheCoins[op := e];
      cachedCoinsUsage := cachedCoinsUsage + e.coin.DynamicMemoryUsage();
    }

    /** Spending removes the coin from the view, whatever the boolean says. */
    method SpendCoin(op: OutPoint) returns (found: bool, moveout: Coin)
      requires Valid()
      modifies caches
      ensures Valid() && SameViews(old(Model()).base, Model().base)
      ensures Unspent(Model()) == old(Unspent(Model())) - {op}
      ensures op in old(Unspent(Model())) ==> found && moveout == old(Unspent(Model()))[op]
      ensures op !in old(Unspent(Model())) ==> moveout.IsSpent()
    {
      found := FetchCoin(op);
      if !found {
        return false, EMPTY_COIN;
      }
      ghost var v := Model();
      SpentEntry(v, op);
      var entry := cacheCoins[op];
      moveout := entry.coin;
      cachedCoinsUsage := cachedCoinsUsage - entry.coin.DynamicMemoryUsage();
      if entry.isFresh {
        cacheCoins := cacheCoins - {op};
      } else {
        cacheCoins := cacheCoins[op := Entry(EMPTY_COIN, true, false)];
      }
      assert Model().base == v.base;
    }

    method Uncache(op: OutPoint)
      requires Valid()
      modifies this
      ensures Valid() && Model().base == old(Model().base) && Unspent(Model()) == old(Unspent(Model()))
      ensures cacheCoins == if op in old(cacheCoins) && !old(cacheCoins)[op].isDirty && !old(cacheCoins)[op].isFresh
                            then old(cacheCoins) - {op} else old(cacheCoins)
    {
      if op in cacheCoins && !cacheCoins[op].isDirty && !cacheCoins[op].isFresh {
        ghost var v := Model();
        UncachedEntry(v, op);
        cachedCoinsUsage := cachedCoinsUsage - cacheCoins[op].coin.DynamicMemoryUsage();
        cacheCoins := cacheCoins - {op};
        assert Model() == AfterDrop(v, op);
      }
    }

    /** Receives a child's entries, in any order. It throws exactly when some FRESH entry
        meets an unspent coin here, which a disciplined child never causes. */
    method BatchWrite(mapCoins: CoinsMap, erase: bool) returns (threw: bool, rest: CoinsMap)
      requires Valid()
      modifies this
      ensures Model().base == old(Model().base)
      ensures threw <==> exists op :: op in mapCoins && Misapplied(mapCoins[op], Get(old(cacheCoins), op))
      ensures !threw ==> MergedFor(mapCoins.Keys, mapCoins, old(cacheCoins), cacheCoins)
      ensures !threw ==> rest == if erase then map[] else mapCoins
      ensures FlagsOk(mapCoins, old(Unspent(Model()))) ==>
                !threw && Valid() && Unspent(Model()) == Overlay(old(Unspent(Model())), mapCoins)
    {
      ghost var v := Model();
      threw, rest := MergeAll(mapCoins, erase);
      if threw {
        ghost var op :| op in mapCoins && Misapplied(mapCoins[op], Get(v.cacheCoins, op));
        BatchThrows(mapCoins, v, op);
      } else if FlagsOk(mapCoins, Unspent(v)) {
        MergeShowsChild(mapCoins, v.base, v.cacheCoins, cacheCoins);
      }
    }

    // The loop of BatchWrite.
    method MergeAll(mapCoins: CoinsMap, erase: bool) returns (threw: bool, rest: CoinsMap)
      requires cachedCoinsUsage == TotalUsage(cacheCoins)
      modifies this
      ensures threw <==> exists op :: op in mapCoins && Misapplied(mapCoins[op], Get(old(cacheCoins), op))
      ensures !threw ==> MergedFor(mapCoins.Keys, mapCoins, old(cacheCoins), cacheCoins)
      ensures !threw ==> rest == if erase then map[] else mapCoins
      ensures cachedCoinsUsage == TotalUsage(cacheCoins)
    {
      rest := mapCoins;
      var todo := mapCoins.Keys;
      ghost var before := cacheCoins;
      while todo != {}
        invariant todo <= mapCoins.Keys
        invariant MergedFor(mapCoins.Keys - todo, mapCoins, before, cacheCoins)
        invariant cachedCoinsUsage == TotalUsage(cacheCoins)
        invariant forall op :: op in mapCoins.Keys - todo ==> !Misapplied(mapCoins[op], Get(before, op))
        invariant rest == if erase then map op | op in todo :: mapCoins[op] else mapCoins
        decreases todo
      {
        var op :| op in todo;
        assert Get(cacheCoins, op) == Get(before, op);
        if Misapplied(mapCoins[op], Get(cacheCoins, op)) {
          return true, rest;
        }
        WriteEntry(op, mapCoins[op]);
        todo := todo - {op};
        if erase {
          rest := rest - {op};
        }
      }
      assert mapCoins.Keys - todo == mapCoins.Keys;
      return false, rest;
    }

    // One iteration of BatchWrite for an entry whose FRESH flag is not misapplied.
    method WriteEntry(op: OutPoint, child: Entry)
      requires cachedCoinsUsage == TotalUsage(cacheCoins) && !Misapplied(child, Get(cacheCoins, op))
      modifies this
      ensures cachedCoinsUsage == TotalUsage(cacheCoins)
      ensures Get(cacheCoins, op) == MergeEntry(child, Get(old(cacheCoins), op))
      ensures forall o :: o != op ==> Get(cacheCoins, o) == Get(old(cacheCoins), o)
    {
      if !child.isDirty {
        return;
      }
      ghost var m := cacheCoins;
      if op !in cacheCoins {
        if !(child.isFresh && child.coin.IsSpent()) {
          cacheCoins := cacheCoins[op := Entry(child.coin, true, child.isFresh)];
          cachedCoinsUsage := cachedCoinsUsage + child.coin.DynamicMemoryUsage();
          TotalUsagePut(m, op, cacheCoins[op]);
        }
      } else {
        var mine := cacheCoins[op];
        cachedCoinsUsage := cachedCoinsUsage - mine.coin.DynamicMemoryUsage();
        if mine.isFresh && child.coin.IsSpent() {
          TotalUsageRemove(m, op);
          cacheCoins := cacheCoins - {op};
        } else {
          cacheCoins := cacheCoins[op := Entry(child.coin, true, mine.isFresh)];
          cachedCoinsUsage := cachedCoinsUsage + child.coin.DynamicMemoryUsage();
          TotalUsagePut(m, op, cacheCoins[op]);
        }
      }
    }

    // Hands this cache's entries to the view below; `keepEmpty` is the database's choice.
    method WriteToBase(erase: bool, keepEmpty: set<OutPoint>) returns (threw: bool, rest: CoinsMap)
      requires Valid()
      modifies if base == null then {db as object} else {base}
      ensures !threw && rest == (if erase then map[] else cacheCoins)
      ensures cacheCoins == old(cacheCoins) && cachedCoinsUsage == old(cachedCoinsUsage)
      ensures Disciplined(Model().base) && Unspent(Model().base) == old(Unspent(Model()))
      ensures Model().base.Cached? == old(Model().base.Cached?)
      ensures Model().base.Cached? ==> Model().base.base == old(Model().base.base)
    {
      ghost var below := Model().base;
      if base == null {
        rest := db.BatchWrite(cacheCoins, erase, keepEmpty);
        threw := false;
      } else {
        threw, rest := base.BatchWrite(cacheCoins, erase);
      }
    }

    method Flush(keepEmpty: set<OutPoint>) returns (threw: bool)
      requires Valid()
      modifies this, if base == null then {db as object} else {base}
      ensures !threw && Valid() && cacheCoins == map[]
      ensures Unspent(Model()) == old(Unspent(Model())) == Unspent(Model().base)
      ensures Model().base.Cached? == old(Model().base.Cached?)
      ensures Model().base.Cached? ==> Model().base.base == old(Model().base.base)
    {
      var rest;
      threw, rest := WriteToBase(true, keepEmpty);
      ghost var below := Model().base;
      if threw || rest != map[] {
        return true;
      }
      cacheCoins := map[];
      cachedCoinsUsage := 0;
      assert Model().base == below;
      assert Overlay(Unspent(below), map[]) == Unspent(below);
    }

    method Sync(keepEmpty: set<OutPoint>) returns (threw: bool)
      requires Valid()
      modifies this, if base == null then {db as object} else {base}
      ensures !threw && Valid()
      ensures Unspent(Model()) == old(Unspent(Model())) == Unspent(Model().base)
      ensures Model().base.Cached? == old(Model().base.Cached?)
      ensures Model().base.Cached? ==> Model().base.base == old(Model().base.base)
      ensures forall op :: op in cacheCoins <==> op in old(cacheCoins) && !old(cacheCoins)[op].coin.IsSpent()
      ensures forall op :: op in cacheCoins ==> cacheCoins[op] == Entry(old(cacheCoins)[op].coin, false, false)
    {
      var rest;
      threw, rest := WriteToBase(false, keepEmpty);
      if threw {
        return;
      }
      ghost var v := Model();
      ClearFlags();
      SyncedEntries(v.base, v.cacheCoins, cacheCoins);
    }

    // The loop of Sync: forgets spent coins and clears the flags of the others.
    method ClearFlags()
      requires cachedCoinsUsage == TotalUsage(cacheCoins)
      modifies this
      ensures cachedCoinsUsage == TotalUsage(cacheCoins)
      ensures forall op :: op in cacheCoins <==> op in old(cacheCoins) && !old(cacheCoins)[op].coin.IsSpent()
      ensures forall op :: op in cacheCoins ==> cacheCoins[op] == Entry(old(cacheCoins)[op].coin, false, false)
    {
      ghost var m := cacheCoins;
      var todo := cacheCoins.Keys;
      while todo != {}
        invariant todo <= cacheCoins.Keys
        invariant cachedCoinsUsage == TotalUsage(cacheCoins)
        invariant forall op :: op in cacheCoins <==> op in m && (op in todo || !m[op].coin.IsSpent())
        invariant forall op :: op in cacheCoins ==>
          cacheCoins[op] == if op in todo then m[op] else Entry(m[op].coin, false, false)
        decreases todo
      {
        var op :| op in todo;
        ghost var now := cacheCoins;
        if cacheCoins[op].coin.IsSpent() {
          TotalUsageRemove(cacheCoins, op);
          cachedCoinsUsage := cachedCoinsUsage - cacheCoins[op].coin.DynamicMemoryUsage();
          cacheCoins := cacheCoins - {op};
        } else {
          cacheCoins := cacheCoins[op := Entry(cacheCoins[op].coin, false, false)];
          TotalUsagePut(now, op, cacheCoins[op]);
        }
        todo := todo - {op};
      }
    }

    /** Reports whether every entry is in a legal state and the memory counter is exact;
        on a disciplined cache it never fails. */
    method SanityCheck() returns (ok: bool)
      requires Linked()
      ensures ok <==> (forall op :: op in cacheCoins ==> DocumentedState(cacheCoins[op])) &&
                      cachedCoinsUsage == TotalUsage(cacheCoins)
      ensures Valid() ==> ok
    {
      var recomputed := 0;
      var todo := cacheCoins.Keys;
      ghost var done: CoinsMap := map[];
      if Valid() {
        forall op | op in cacheCoins ensures DocumentedState(cacheCoins[op]) { OnlyDocumentedStates(Model(), op); }
      }
      while todo != {}
        invariant todo <= cacheCoins.Keys
        invariant done == map op | op in cacheCoins.Keys - todo :: cacheCoins[op]
        invariant forall op :: op in done ==> DocumentedState(done[op])
        invariant recomputed == TotalUsage(done)
        decreases todo
      {
        var op :| op in todo;
        var entry := cacheCoins[op];
        var attr := 0;
        if entry.isDirty { attr := attr + 1; }
        if entry.isFresh { attr := attr + 2; }
        if entry.coin.IsSpent() { attr := attr + 4; }
        if attr == 2 || attr == 4 || attr == 7 {
          return false;
        }
        recomputed := recomputed + entry.coin.DynamicMemoryUsage();
        TotalUsagePut(done, op, entry);
        done := done[op := entry];
        todo := todo - {op};
      }
      assert done == cacheCoins;
      ok := recomputed == cachedCoinsUsage;
    }
  }

  /** Caching what the view below holds changes neither the discipline nor what is shown. */
  lemma FetchedEntry(v: CoinsView, op: OutPoint, coin: Coin)
    requires v.Cached? && Disciplined(v) && op !in v.cacheCoins
    requires var below := Unspent(v.base);
             if coin.IsSpent() then op !in below else op in below && below[op] == coin
    ensures var w := AfterPut(v, op, Entry(coin, false, coin.IsSpent()));
            Disciplined(w) && Unspent(w) == Unspent(v)
  {
    var e := Entry(coin, false, coin.IsSpent());
    var m', below := v.cacheCoins[op := e], Unspent(v.base);
    TotalUsagePut(v.cacheCoins, op, e);
    OverlayPut(below, v.cacheCoins, op, e);
    forall o | o in m' ensures FlagOk(m'[o], o, below) {
      if o != op { assert FlagOk(v.cacheCoins[o], o, below); }
    }
    assert FlagsOk(m', below);
  }

  lemma OverlayPut(v: UtxoSet, m: CoinsMap, op: OutPoint, e: Entry)
    ensures Overlay(v, m[op := e]) == if e.coin.IsSpent() then Overlay(v, m) - {op} else Overlay(v, m)[op := e.coin]
  {
    var l := Overlay(v, m[op := e]);
    var r := if e.coin.IsSpent() then Overlay(v, m) - {op} else Overlay(v, m)[op := e.coin];
    assert l.Keys == r.Keys;
  }

  lemma OverlayDrop(v: UtxoSet, m: CoinsMap, op: OutPoint)
    ensures Overlay(v, m - {op}) == if op in v then Overlay(v, m)[op := v[op]] else Overlay(v, m) - {op}
  {
    var l := Overlay(v, m - {op});
    var r := if op in v then Overlay(v, m)[op := v[op]] else Overlay(v, m) - {op};
    assert l.Keys == r.Keys;
  }

  /** The view after an entry replaced whatever was cached. */
  function AfterPut(v: CoinsView, op: OutPoint, e: Entry): CoinsView
    requires v.Cached?
  {
    var m := v.cacheCoins;
    Cached(v.base, m[op := e],
           v.usage - (if op in m then m[op].coin.DynamicMemoryUsage() else 0) + e.coin.DynamicMemoryUsage())
  }

  lemma AddedEntry(v: CoinsView, op: OutPoint, e: Entry)
    requires v.Cached? && Disciplined(v) && !e.coin.IsSpent() && e.isDirty
    ensures Disciplined(AfterPut(v, op, e)) <==> (e.isFresh ==> op !in Unspent(v.base))
    ensures Unspent(AfterPut(v, op, e)) == Unspent(v)[op := e.coin]
  {
    var m' := v.cacheCoins[op := e];
    TotalUsagePut(v.cacheCoins, op, e);
    assert FlagsOk(m', Unspent(v.base)) ==> FlagOk(m'[op], op, Unspent(v.base));
    OverlayPut(Unspent(v.base), v.cacheCoins, op, e);
  }

  /** The FRESH mark that AddCoin computes is truthful exactly when the caller kept the contract. */
  lemma AddContract(v: CoinsView, op: OutPoint, possibleOverwrite: bool)
    requires v.Cached? && Disciplined(v)
    requires possibleOverwrite || (op in v.cacheCoins ==> v.cacheCoins[op].coin.IsSpent())
    ensures var entry := if op in v.cacheCoins then v.cacheCoins[op] else Entry(EMPTY_COIN, false, false);
            ((entry.isFresh || (!possibleOverwrite && !entry.isDirty)) ==> op !in Unspent(v.base))
            <==> (possibleOverwrite || op !in Unspent(v))
  {
    if op in v.cacheCoins { assert FlagOk(v.cacheCoins[op], op, Unspent(v.base)); }
  }

  function AfterDrop(v: CoinsView, op: OutPoint): CoinsView
    requires v.Cached? && op in v.cacheCoins
  {
    Cached(v.base, v.cacheCoins - {op}, v.usage - v.cacheCoins[op].coin.DynamicMemoryUsage())
  }

  lemma SpentEntry(v: CoinsView, op: OutPoint)
    requires v.Cached? && Disciplined(v) && op in v.cacheCoins
    ensures var w := if v.cacheCoins[op].isFresh then AfterDrop(v, op) else AfterPut(v, op, Entry(EMPTY_COIN, true, false));
            Disciplined(w) && Unspent(w) == Unspent(v) - {op}
  {
    var m, below := v.cacheCoins, Unspent(v.base);
    assert FlagOk(m[op], op, below);
    if m[op].isFresh {
      TotalUsageRemove(m, op);
      OverlayDrop(below, m, op);
    } else {
      var e := Entry(EMPTY_COIN, true, false);
      TotalUsagePut(m, op, e);
      OverlayPut(below, m, op, e);
    }
  }

  lemma UncachedEntry(v: CoinsView, op: OutPoint)
    requires v.Cached? && Disciplined(v) && op in v.cacheCoins
    requires !v.cacheCoins[op].isDirty && !v.cacheCoins[op].isFresh
    ensures Disciplined(AfterDrop(v, op)) && Unspent(AfterDrop(v, op)) == Unspent(v)
  {
    assert FlagOk(v.cacheCoins[op], op, Unspent(v.base));
    TotalUsageRemove(v.cacheCoins, op);
    OverlayDrop(Unspent(v.base), v.cacheCoins, op);
  }

  lemma BatchThrows(child: CoinsMap, mine: CoinsView, op: OutPoint)
    requires mine.Cached? && op in child && Misapplied(child[op], Get(mine.cacheCoins, op))
    ensures !FlagsOk(child, Unspent(mine))
  {
    assert !FlagOk(child[op], op, Unspent(mine));
  }

  /** Once the view below shows what this cache shows, the unspent entries may drop their flags. */
  lemma SyncedEntries(below: CoinsView, was: CoinsMap, now: CoinsMap)
    requires forall op :: op in was ==>
      if was[op].coin.IsSpent() then op !in Unspent(below) else op in Unspent(below) && Unspent(below)[op] == was[op].coin
    requires forall op :: op in now <==> op in was && !was[op].coin.IsSpent()
    requires forall op :: op in now ==> now[op] == Entry(was[op].coin, false, false)
    ensures FlagsOk(now, Unspent(below)) && Overlay(Unspent(below), now) == Unspent(below)
  {
    assert Overlay(Unspent(below), now).Keys == Unspent(below).Keys;
  }

  lemma SameViewsReflexive(v: CoinsView)
    ensures SameViews(v, v)
  {
  }
}
