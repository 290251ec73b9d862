/** Whole runs over a stack of coins caches of any depth: coins are added and spent at
    the top, while any level may be read, uncached, flushed or synced, and levels come
    and go. The reference is one plain map of unspent coins per level. */
module CoinsStack {
  import opened CoinsModel
  import opened CoinsCache

  datatype Upkeep =
    | Read(op: OutPoint)
    | Uncache(op: OutPoint)
    | Flush(keepEmpty: set<OutPoint>)
    | Sync(keepEmpty: set<OutPoint>)

  datatype Action =
    | Add(op: OutPoint, coin: Coin, possibleOverwrite: bool)
    | Spend(op: OutPoint)
    | Maintain(down: nat, upkeep: Upkeep)  // `down` levels below the top
    | Push
    | Pop

  /** One plain map per level, the database first. */
  type Reference = r: seq<UtxoSet> | |r| > 0 witness [map[]]

  function Top(r: Reference): UtxoSet {
    r[|r| - 1]
  }

  /** Upkeep of the cache `down` levels below the top, on plain maps: writing back
      copies that level's map to the level under it, anything else changes nothing. */
  function RefUpkeep(r: Reference, down: nat, u: Upkeep): Reference {
    var l := |r| - 1 - down;
    if (u.Flush? || u.Sync?) && l > 0 then r[l - 1 := r[l]] else r
  }

  function RefStep(r: Reference, a: Action): Reference {
    match a
    case Add(op, coin, _) => if |r| == 1 || coin.IsUnspendable() then r else r[|r| - 1 := Top(r)[op := coin]]
    case Spend(op) => if |r| == 1 then r else r[|r| - 1 := Top(r) - {op}]
    case Maintain(down, u) => RefUpkeep(r, down, u)
    case Push => r + [Top(r)]
    case Pop => if |r| == 1 then r else r[..|r| - 1]
  }

  /** The caller's side of AddCoin: an unspent coin, and no silent overwrite. */
  predicate Permitted(r: Reference, a: Action) {
    a.Add? ==> !a.coin.IsSpent() && (a.coin.IsUnspendable() || a.possibleOverwrite || a.op !in Top(r))
  }

  function RefRun(r: Reference, actions: seq<Action>): Reference {
    if actions == [] then r
    else RefStep(RefRun(r, actions[..|actions| - 1]), actions[|actions| - 1])
  }

  ghost predicate PermittedRun(r: Reference, actions: seq<Action>) {
    forall i :: 0 <= i < |actions| ==> Permitted(RefRun(r, actions[..i]), actions[i])
  }

  /** The plain maps a stack of views stands for. */
  ghost function Views(v: CoinsView): (r: Reference)
    ensures Top(r) == Unspent(v)
  {
    match v
    case Database(_) => [Unspent(v)]
    case Cached(base, _, _) => Views(base) + [Unspent(v)]
  }

  lemma SameViewsSameReference(v: CoinsView, w: CoinsView)
    requires SameViews(v, w)
    ensures Views(v) == Views(w)
  {
  }

  method MaintainTop(c: CoinsViewCache, u: Upkeep) returns (threw: bool)
    requires c.Valid()
    modifies c.caches, c.db
    ensures !threw && c.Valid() && Unspent(c.Model()) == old(Unspent(c.Model()))
    ensures Views(c.Model()) == RefUpkeep(old(Views(c.Model())), 0, u)
  {
    threw := false;
    ghost var was := c.Model();
    assert c.base != null ==> c.base.Linked() && c.base in c.base.caches;
    match u
    case Read(op) =>
      var _, _ := c.GetCoin(op);
      SameViewsSameReference(was, c.Model());
    case Uncache(op) =>
      c.Uncache(op);
    case Flush(keep) =>
      threw := c.Flush(keep);
    case Sync(keep) =>
      threw := c.Sync(keep);
  }

  /** Upkeep below the top leaves the top as it was. */
  lemma {:induction false} UpkeepBelow(was: CoinsView, now: CoinsView, down: nat, u: Upkeep)
    requires was.Cached? && now.Cached? && now == was.(base := now.base) && down > 0 && Disciplined(was)
    requires Disciplined(now.base)
    requires Unspent(now.base) == Unspent(was.base) && Views(now.base) == RefUpkeep(Views(was.base), down - 1, u)
    ensures Disciplined(now) && Unspent(now) == Unspent(was) && Views(now) == RefUpkeep(Views(was), down, u)
  {
    hide FlagsOk, Overlay, TotalUsage;
  }

  lemma NothingBelow(v: CoinsView, down: nat, u: Upkeep)
    requires v.Cached? && v.base.Database? && down > 0
    ensures Views(v) == RefUpkeep(Views(v), down, u)
  {
    hide Overlay;
  }

  method MaintainAt(c: CoinsViewCache, down: nat, u: Upkeep) returns (threw: bool)
    requires c.Valid()
    modifies c.caches, c.db
    ensures !threw && c.Valid() && Unspent(c.Model()) == old(Unspent(c.Model()))
    ensures Views(c.Model()) == RefUpkeep(old(Views(c.Model())), down, u)
    decreases down
  {
    hide Disciplined, Unspent, Views, RefUpkeep;
    if down == 0 {
      threw := MaintainTop(c, u);
    } else if c.base == null {
      NothingBelow(c.Model(), down, u);
      threw := false;
    } else {
      ghost var was := c.Model();
      BaseDisciplined(was);
      threw := MaintainAt(c.base, down - 1, u);
      UpkeepBelow(was, c.Model(), down, u);
    }
  }

  lemma BaseDisciplined(v: CoinsView)
    requires v.Cached? && Disciplined(v)
    ensures Disciplined(v.base)
  {
  }

  method ActOnTop(c: CoinsViewCache, a: Action) returns (threw: bool)
    requires c.Valid() && (a.Add? || a.Spend? || a.Maintain?) && Permitted(Views(c.Model()), a)
    modifies c.caches, c.db
    ensures !threw && c.Valid()
    ensures Views(c.Model()) == RefStep(old(Views(c.Model())), a)
  {
    ghost var was := c.Model();
    if a.Maintain? {
      threw := MaintainAt(c, a.down, a.upkeep);
    } else if a.Add? {
      threw := c.AddCoin(a.op, a.coin, a.possibleOverwrite);
    } else {
      var _, _ := c.SpendCoin(a.op);
      SameViewsSameReference(was.base, c.Model().base);
      threw := false;
    }
  }

  class CacheStack {
    const db: CoinsDB
    var top: CoinsViewCache?

    ghost function Caches(): set<CoinsViewCache>
      reads this
    {
      if top == null then {} else top.caches
    }

    ghost predicate Valid()
      reads this, db, Caches()
    {
      top != null ==> top.db == db && top.Valid()
    }

    ghost function Model(): CoinsView
      requires Valid()
      reads this, db, Caches()
    {
      if top == null then Database(db.coins) else top.Model()
    }

    constructor (db: CoinsDB)
      ensures Valid() && this.db == db && Model() == Database(db.coins)
    {
      this.db := db;
      top := null;
    }

    /** One permitted action: nothing throws, the discipline survives, and the stack
        still shows the reference maps. */
    method Step(a: Action) returns (threw: bool)
      requires Valid() && Permitted(Views(Model()), a)
      modifies this, db, Caches()
      ensures Valid() && !threw && fresh(Caches() - old(Caches()))
      ensures Views(Model()) == RefStep(old(Views(Model())), a)
    {
      threw := false;
      if a.Push? {
        PushLevel();
      } else if top != null {
        if a.Pop? {
          assert top.base != null ==> top.base.Linked() && top.base.caches <= top.caches;
          top := top.base;
        } else {
          threw := ActOnTop(top, a);
        }
      }
    }

    method PushLevel()
      requires Valid()
      modifies this
      ensures Valid() && fresh(Caches() - old(Caches()))
      ensures Views(Model()) == RefStep(old(Views(Model())), Push)
    {
      if top == null {
        top := new CoinsViewCache.OverDatabase(db);
      } else {
        top := new CoinsViewCache.OverCache(top);
      }
    }

    /** Every permitted run leaves each level equal to its plain map. */
    method Run(actions: seq<Action>) returns (threw: bool)
      requires Valid() && PermittedRun(Views(Model()), actions)
      modifies this, db, Caches()
      ensures Valid() && !threw && fresh(Caches() - old(Caches()))
      ensures Views(Model()) == RefRun(old(Views(Model())), actions)
    {
      ghost var r := Views(Model());
      threw := false;
      for i := 0 to |actions|
        invariant Valid() && !threw && Views(Model()) == RefRun(r, actions[..i])
        invariant fresh(Caches() - old(Caches()))
      {
        assert actions[..i + 1][..i] == actions[..i];
        threw := Step(actions[i]);
      }
      assert actions[..|actions|] == actions;
    }
  }
}
