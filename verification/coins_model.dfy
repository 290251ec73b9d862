/** Values of the coins database: coins, cache entries with their DIRTY and FRESH
    flags, and a stack of views as an immutable snapshot, with the flag discipline
    that keeps such a stack equal to a plain map of unspent coins. */
module CoinsModel {
  import opened Prelude

  const OP_RETURN := 0x6a
  const MAX_SCRIPT_SIZE := 10000
  const SCRIPT_INLINE_BYTES := 28

  newtype uint8 = x: int | 0 <= x < 256

  datatype OutPoint = OutPoint(hash: nat, n: nat)

  datatype TxOut = TxOut(nValue: int, scriptPubKey: seq<uint8>)

  datatype Coin = Coin(out: TxOut, fCoinBase: bool, fCoinStake: bool, nHeight: nat, nTime: nat) {
    predicate IsSpent() {
      out.nValue == -1
    }

    predicate IsUnspendable() {
      var s := out.scriptPubKey;
      (|s| > 0 && s[0] as int == OP_RETURN) || |s| > MAX_SCRIPT_SIZE
    }

    // Heap bytes owned by the script: none while it fits inline, else the allocator's
    // rounded block size on a 64-bit machine.
    function DynamicMemoryUsage(): nat {
      var len := |out.scriptPubKey|;
      if len <= SCRIPT_INLINE_BYTES then 0 else (len + 31) / 16 * 16
    }
  }

  const EMPTY_COIN := Coin(TxOut(-1, []), false, false, 0, 0)

  datatype Entry = Entry(coin: Coin, isDirty: bool, isFresh: bool)

  type CoinsMap = map<OutPoint, Entry>

  type UtxoSet = map<OutPoint, Coin>

  // ---------- Memory accounting ----------

  ghost function TotalUsage(m: CoinsMap): nat
    decreases |m|
  {
    if m == map[] then 0
    else
      var k :| k in m;
      m[k].coin.DynamicMemoryUsage() + TotalUsage(m - {k})
  }

  lemma {:induction false} TotalUsageRemove(m: CoinsMap, k: OutPoint)
    requires k in m
    ensures TotalUsage(m) == m[k].coin.DynamicMemoryUsage() + TotalUsage(m - {k})
    decreases |m|
  {
    var j :| j in m && TotalUsage(m) == m[j].coin.DynamicMemoryUsage() + TotalUsage(m - {j});
    if j != k {
      TotalUsageRemove(m - {j}, k);
      TotalUsageRemove(m - {k}, j);
      assert m - {j} - {k} == m - {k} - {j};
    }
  }

  lemma TotalUsagePut(m: CoinsMap, k: OutPoint, e: Entry)
    ensures TotalUsage(m[k := e]) ==
            TotalUsage(m) - (if k in m then m[k].coin.DynamicMemoryUsage() else 0) + e.coin.DynamicMemoryUsage()
  {
    var m' := m[k := e];
    TotalUsageRemove(m', k);
    assert m' - {k} == m - {k};
    if k in m {
      TotalUsageRemove(m, k);
    } else {
      assert m - {k} == m;
    }
  }

  // ---------- A stack of views ----------

  /** A view is the database, or a cache (with its memory counter) over another view. */
  datatype CoinsView =
    | Database(coins: map<OutPoint, Coin>)
    | Cached(base: CoinsView, cacheCoins: CoinsMap, usage: int)

  /** The map of unspent coins a cache shows when the view below shows `below`. */
  function Overlay(below: UtxoSet, m: CoinsMap): (r: UtxoSet)
    ensures forall op :: op in r <==> if op in m then !m[op].coin.IsSpent() else op in below
  {
    map op | op in below.Keys + m.Keys && (op in m ==> !m[op].coin.IsSpent()) ::
      if op in m then m[op].coin else below[op]
  }

  /** The plain map of unspent coins that a view stands for. */
  function Unspent(v: CoinsView): UtxoSet {
    match v
    case Database(coins) => map op | op in coins && !coins[op].IsSpent() :: coins[op]
    case Cached(base, m, _) => Overlay(Unspent(base), m)
  }

  /** What DIRTY and FRESH promise about the view below. */
  ghost predicate FlagOk(e: Entry, op: OutPoint, below: UtxoSet) {
    && (e.isFresh ==> op !in below)
    && (!e.isDirty ==> if e.coin.IsSpent() then op !in below else op in below && below[op] == e.coin)
    && (e.coin.IsSpent() ==> e.isDirty != e.isFresh)
  }

  ghost predicate FlagsOk(m: CoinsMap, below: UtxoSet) {
    forall op :: op in m ==> FlagOk(m[op], op, below)
  }

  /** Every cache of the stack keeps its flags and its memory counter right. */
  ghost predicate Disciplined(v: CoinsView) {
    match v
    case Database(_) => true
    case Cached(base, m, usage) => Disciplined(base) && FlagsOk(m, Unspent(base)) && usage == TotalUsage(m)
  }

  /** Same shape and the same unspent coins at every level: what a pure read may do. */
  ghost predicate SameViews(v: CoinsView, w: CoinsView) {
    && Unspent(v) == Unspent(w)
    && match (v, w)
       case (Database(_), Database(_)) => true
       case (Cached(b, _, _), Cached(c, _, _)) => SameViews(b, c)
       case _ => false
  }

  // The five combinations of (spent, DIRTY, FRESH) that are documented as valid.
  predicate DocumentedState(e: Entry) {
    || (!e.coin.IsSpent() && e.isFresh && e.isDirty)
    || (!e.coin.IsSpent() && !e.isFresh && e.isDirty)
    || (!e.coin.IsSpent() && !e.isFresh && !e.isDirty)
    || (e.coin.IsSpent() && e.isFresh && !e.isDirty)
    || (e.coin.IsSpent() && !e.isFresh && e.isDirty)
  }

  lemma OnlyDocumentedStates(v: CoinsView, op: OutPoint)
    requires v.Cached? && Disciplined(v) && op in v.cacheCoins
    ensures DocumentedState(v.cacheCoins[op])
  {
    assert FlagOk(v.cacheCoins[op], op, Unspent(v.base));
  }

  // ---------- Pushing a child's entries into its parent ----------

  /** Entry the parent ends up with for one outpoint, given the child's entry. */
  function MergeEntry(child: Entry, mine: Option<Entry>): Option<Entry> {
    if !child.isDirty then mine
    else match mine
         case None =>
           if child.isFresh && child.coin.IsSpent() then None else Some(Entry(child.coin, true, child.isFresh))
         case Some(e) =>
           if e.isFresh && child.coin.IsSpent() then None else Some(Entry(child.coin, true, e.isFresh))
  }

  function Get(m: CoinsMap, op: OutPoint): Option<Entry> {
    if op in m then Some(m[op]) else None
  }

  /** `after` is the parent `before` with the child's entries for `keys` pushed into it. */
  ghost predicate MergedFor(keys: set<OutPoint>, child: CoinsMap, before: CoinsMap, after: CoinsMap) {
    && keys <= child.Keys
    && forall op :: Get(after, op) == if op in keys then MergeEntry(child[op], Get(before, op)) else Get(before, op)
  }

  predicate Misapplied(child: Entry, mine: Option<Entry>) {
    child.isDirty && child.isFresh && mine.Some? && !mine.value.coin.IsSpent()
  }

  /** A child that is disciplined over its parent never trips the parent's FRESH check. */
  lemma NeverMisapplied(child: CoinsMap, parent: CoinsView, op: OutPoint)
    requires parent.Cached? && FlagsOk(child, Unspent(parent)) && op in child
    ensures !Misapplied(child[op], Get(parent.cacheCoins, op))
  {
    assert FlagOk(child[op], op, Unspent(parent));
  }

  /** After the push the parent shows exactly what the child showed, and is itself disciplined. */
  lemma MergeShowsChild(child: CoinsMap, base: CoinsView, before: CoinsMap, after: CoinsMap)
    requires FlagsOk(before, Unspent(base))
    requires FlagsOk(child, Overlay(Unspent(base), before))
    requires MergedFor(child.Keys, child, before, after)
    ensures FlagsOk(after, Unspent(base))
    ensures Overlay(Unspent(base), after) == Overlay(Overlay(Unspent(base), before), child)
  {
    var below := Unspent(base);
    hide Unspent, MergedFor, FlagOk;
    var mid := Overlay(below, before);
    forall op | op in after
      ensures FlagOk(after[op], op, below)
    {
      MergeFlagOk(child, below, before, after, op);
    }
    var l, r := Overlay(below, after), Overlay(mid, child);
    forall op
      ensures op in l <==> op in r
      ensures op in l ==> l[op] == r[op]
    {
      MergePoint(child, below, before, after, op);
    }
    assert l.Keys == r.Keys;
  }

  lemma MergeFlagOk(child: CoinsMap, below: UtxoSet, before: CoinsMap, after: CoinsMap, op: OutPoint)
    requires FlagsOk(before, below) && FlagsOk(child, Overlay(below, before))
    requires MergedFor(child.Keys, child, before, after)
    requires op in after
    ensures FlagOk(after[op], op, below)
  {
    assert Get(after, op) == Some(after[op]);
    if op in before { assert FlagOk(before[op], op, below); }
    if op in child { assert FlagOk(child[op], op, Overlay(below, before)); }
  }

  lemma MergePoint(child: CoinsMap, below: UtxoSet, before: CoinsMap, after: CoinsMap, op: OutPoint)
    requires FlagsOk(before, below) && FlagsOk(child, Overlay(below, before))
    requires MergedFor(child.Keys, child, before, after)
    ensures var l, r := Overlay(below, after), Overlay(Overlay(below, before), child);
            (op in l <==> op in r) && (op in l ==> l[op] == r[op])
  {
    assert Get(after, op) == if op in child then MergeEntry(child[op], Get(before, op)) else Get(before, op);
    if op in before { assert FlagOk(before[op], op, below); }
    if op in child { assert FlagOk(child[op], op, Overlay(below, before)); }
  }
}
