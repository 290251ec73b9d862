/** The cuckoo cache with its table, flags and counters updated in place. */
module CuckooCache {
  import opened Prelude
  import opened CuckooModel
  import opened CuckooFlags

  /** 45% of the size, in 32-bit arithmetic, and at least 1. */
  function EpochSize(n: nat): (r: nat)
    ensures r >= 1
  {
    Max(1, 45 * n % UINT32_RANGE / 100)
  }

  class Cache<T(==, !new)> {
    const hash: (nat, T) -> nat
    const unset: T
    const size: nat
    const depthLimit: nat
    const epochSize: nat
    const table: array<T>
    const flags: BitFlags
    const epochFlags: array<bool>
    var counter: nat
    ghost var inserted: set<T>

    ghost predicate Shaped() {
      && size >= 2 && depthLimit >= 1 && epochSize >= 1
      && table as object != epochFlags as object && table as object != flags.mem as object && flags.mem as object != epochFlags as object
      && table.Length == size && epochFlags.Length == size && size <= 8 * flags.mem.Length
    }

    ghost function CellAt(i: nat): Cell<T>
      requires Shaped() && i < size
      reads table, flags.mem, epochFlags
    {
      Cell(table[i], flags.IsSet(i), epochFlags[i])
    }

    ghost function Cells(): (r: seq<Cell<T>>)
      requires Shaped()
      reads table, flags.mem, epochFlags
      ensures |r| == size && forall i :: 0 <= i < size ==> r[i] == CellAt(i)
    {
      seq(size, i requires 0 <= i < size reads table, flags.mem, epochFlags => CellAt(i))
    }

    /** Slack of an epoch: how far it may outgrow its size between two scans. */
    function Slack(): nat { Max(1, epochSize / 16) }

    ghost predicate Valid()
      reads this, table, flags.mem, epochFlags
    {
      && Shaped() && Placed(Cells(), hash, unset) && Known(Cells(), inserted, unset)
      && Tally(Cells(), true) + counter <= epochSize + Slack() && Tally(Cells(), false) <= epochSize + Slack()
    }

    /** `depth` stands for the floating-point log2 of the size. */
    constructor (hash: (nat, T) -> nat, unset: T, newSize: nat, depth: nat)
      requires depth >= 1 && Max(2, newSize) + 7 < UINT32_RANGE
      ensures Valid() && fresh(table) && fresh(flags) && fresh(flags.mem) && fresh(epochFlags)
      ensures this.hash == hash && this.unset == unset && size == Max(2, newSize) && inserted == {}
      ensures forall i :: 0 <= i < size ==> Cells()[i] == Cell(unset, true, false)
    {
      hide EpochSize;
      var n := Max(2, newSize);
      this.hash := hash;
      this.unset := unset;
      size := n;
      depthLimit := depth;
      table := new T[n](_ => unset);
      flags := new BitFlags(n);
      epochFlags := new bool[n](_ => false);
      epochSize := EpochSize(n);
      counter := EpochSize(n);
      inserted := {};
      new;
      hide Placed, Known, Tally;
      EmptyCells(Cells(), hash, unset);
    }

    /** Writes a cell that is to be kept. */
    method Put(loc: nat, e: T, recent: bool)
      requires Shaped() && loc < size
      modifies table, flags.mem, epochFlags
      ensures Cells() == old(Cells())[loc := Cell(e, false, recent)]
    {
      table[loc] := e;
      flags.Unset(loc);
      epochFlags[loc] := recent;
    }

    // ---------- Epochs ----------

    method CountRecent() returns (count: nat)
      requires Shaped()
      ensures count == Tally(Cells(), true)
    {
      count := 0;
      for i := 0 to size
        invariant count == Tally(Cells()[..i], true)
      {
        assert Cells()[..i + 1][..i] == Cells()[..i];
        if epochFlags[i] && !flags.IsSet(i) {
          count := count + 1;
        }
      }
      assert Cells()[..size] == Cells();
    }

    method Age()
      requires Shaped()
      modifies flags.mem, epochFlags
      ensures Cells() == Aged(old(Cells()))
    {
      ghost var was := Cells();
      for i := 0 to size
        invariant forall j :: 0 <= j < size ==> CellAt(j) == if j < i then AgedCell(was[j]) else was[j]
      {
        if epochFlags[i] {
          epochFlags[i] := false;
        } else {
          flags.Set(i);
        }
      }
    }

    /** Leaves room in the counter for one more recent element. */
    method EpochCheck()
      requires Valid()
      modifies this`counter, flags.mem, epochFlags
      ensures Valid() && Tally(Cells(), true) + counter < epochSize + Slack()
      ensures Cells() ==
        if old(counter) == 0 && old(Tally(Cells(), true)) >= epochSize then Aged(old(Cells())) else old(Cells())
    {
      hide Tally, Placed, Known, Aged;
      ghost var was := Cells();
      if counter != 0 {
        counter := counter - 1;
        return;
      }
      var unused := CountRecent();
      if unused >= epochSize {
        Age();
        AgedTally(was);
        AgedPlaced(was, hash, unset, inserted);
        counter := epochSize;
      } else {
        counter := Max(1, Max(epochSize / 16, epochSize - unused));
      }
    }

    // ---------- Insertion ----------

    /** The first location that holds `e`, or 8. */
    method FindElement(locs: seq<nat>, e: T) returns (k: nat)
      requires Shaped() && |locs| == 8 && forall i :: 0 <= i < 8 ==> locs[i] < size
      ensures k <= 8 && (k < 8 ==> table[locs[k]] == e) && forall j :: 0 <= j < k ==> table[locs[j]] != e
    {
      for i := 0 to 8
        invariant forall j :: 0 <= j < i ==> table[locs[j]] != e
      {
        if table[locs[i]] == e {
          return i;
        }
      }
      k := 8;
    }

    /** The first location that may be overwritten, or 8. */
    method FindDead(locs: seq<nat>) returns (k: nat)
      requires Shaped() && |locs| == 8 && forall i :: 0 <= i < 8 ==> locs[i] < size
      ensures k <= 8 && (k < 8 ==> Cells()[locs[k]].dead) && forall j :: 0 <= j < k ==> !Cells()[locs[j]].dead
    {
      for i := 0 to 8
        invariant forall j :: 0 <= j < i ==> !Cells()[locs[j]].dead
      {
        if flags.IsSet(locs[i]) {
          return i;
        }
      }
      k := 8;
    }

    /** The loop's state: `cur` is in hand, everything else is where it may be. */
    ghost predicate Moving(mid: seq<Cell<T>>, e: T, cur: T, lastEpoch: bool)
      reads this, table, flags.mem, epochFlags
    {
      && Shaped() && Placed(Cells(), hash, unset) && Known(Cells(), inserted, unset)
      && Conserved(mid, Cells(), e, Some((cur, lastEpoch))) && (cur in inserted || cur == unset)
    }

    /** Swaps the element in hand with the live one at `loc`. */
    method Swap(loc: nat, cur: T, lastEpoch: bool) returns (evicted: T, epoch: bool)
      requires Shaped() && loc < size && !flags.IsSet(loc)
      modifies table, epochFlags
      ensures Cells() == old(Cells())[loc := Cell(cur, false, lastEpoch)]
      ensures old(Cells()[loc]) == Cell(evicted, false, epoch)
    {
      evicted, epoch := table[loc], epochFlags[loc];
      table[loc] := cur;
      epochFlags[loc] := lastEpoch;
    }

    /** One round: settles the element in hand in a free location, or swaps it with the element at the
        location after the last one. From the second round on the last location is one of the eight. */
    method Kick(e: T, cur: T, lastEpoch: bool, lastLoc: nat, ghost mid: seq<Cell<T>>, ghost first: bool)
      returns (settled: bool, next: T, nextEpoch: bool, nextLoc: nat)
      requires Moving(mid, e, cur, lastEpoch) && (!first ==> lastLoc in Locations(hash, size, cur))
      modifies table, flags.mem, epochFlags
      ensures settled ==> Shaped() && Placed(Cells(), hash, unset) && Known(Cells(), inserted, unset) && Conserved(mid, Cells(), e, None)
      ensures !settled ==> Moving(mid, e, next, nextEpoch) && nextLoc in Locations(hash, size, next)
    {
      hide Placed, Known, Conserved, Locations;
      var locs := Locations(hash, size, cur);
      LocationsBound(hash, size, cur);
      ghost var cells := Cells();
      next, nextEpoch, nextLoc := cur, lastEpoch, lastLoc;
      var k := FindDead(locs);
      if k < 8 {
        assert locs[k] in locs;
        ConservedStep(mid, cells, e, (cur, lastEpoch), locs[k]);
        PlacedStep(cells, hash, unset, inserted, locs[k], cur, lastEpoch);
        Put(locs[k], cur, lastEpoch);
        return true, next, nextEpoch, nextLoc;
      }
      var at := Find(locs, lastLoc);
      assert !first ==> at < 8;
      nextLoc := locs[(1 + at) % 8];
      assert nextLoc in locs;
      ConservedStep(mid, cells, e, (cur, lastEpoch), nextLoc);
      PlacedStep(cells, hash, unset, inserted, nextLoc, cur, lastEpoch);
      LiveIsPlaced(cells, hash, unset, inserted, nextLoc);
      next, nextEpoch := Swap(nextLoc, cur, lastEpoch);
      settled := false;
    }

    /** Everything live after the epoch check is still live, and so is `e`, except at most one element. */
    method Insert(e: T) returns (ghost mid: seq<Cell<T>>, ghost lost: Option<(T, bool)>)
      requires Valid()
      modifies this, table, flags.mem, epochFlags
      ensures Valid() && inserted == old(inserted) + {e}
      ensures mid ==
        if old(counter) == 0 && old(Tally(Cells(), true)) >= epochSize then Aged(old(Cells())) else old(Cells())
      ensures Conserved(mid, Cells(), e, lost)
    {
      hide Placed, Known, Conserved, Locations, Tally;
      EpochCheck();
      mid := Cells();
      KnownMore(mid, inserted, unset, e);
      inserted := inserted + {e};
      ConservedStart(mid, e);
      var locs := Locations(hash, size, e);
      LocationsBound(hash, size, e);
      var k := FindElement(locs, e);
      if k < 8 {
        assert locs[k] in locs;
        ConservedStep(mid, mid, e, (e, true), locs[k]);
        PlacedStep(mid, hash, unset, inserted, locs[k], e, true);
        lost := Content(mid[locs[k]]);
        Put(locs[k], e, true);
        Totals(mid, Cells(), e, lost);
        return;
      }
      var cur, lastEpoch, lastLoc := e, true, 0xFFFF_FFFF;
      var depth, settled := 0, false;
      ghost var c := counter;
      while depth < depthLimit && !settled
        invariant inserted == old(inserted) + {e} && counter == c
        invariant !settled ==> Moving(mid, e, cur, lastEpoch) && (depth > 0 ==> lastLoc in Locations(hash, size, cur))
        invariant settled ==> Placed(Cells(), hash, unset) && Known(Cells(), inserted, unset) && Conserved(mid, Cells(), e, None)
        decreases depthLimit - depth
      {
        settled, cur, lastEpoch, lastLoc := Kick(e, cur, lastEpoch, lastLoc, mid, depth == 0);
        depth := depth + 1;
      }
      lost := if settled then None else Some((cur, lastEpoch));
      Totals(mid, Cells(), e, lost);
    }

    /** Finds every live element, and nothing that was never inserted but the default. */
    method Contains(e: T, erase: bool) returns (found: bool)
      requires Valid()
      modifies flags.mem
      ensures Valid() && table[..] == old(table[..])
      ensures found <==> Held(table[..], hash, e)
      ensures found ==> e in inserted || e == unset
      ensures (exists r :: old(Copies(Cells(), e, r)) > 0) ==> found
      ensures !(found && erase) ==> Cells() == old(Cells())
      ensures found && erase ==> exists i: nat ::
        i < size && old(Cells())[i].elem == e && Cells() == old(Cells())[i := old(Cells())[i].(dead := true)]
    {
      hide Placed, Known, Tally, Copies;
      var locs := Locations(hash, size, e);
      LocationsBound(hash, size, e);
      ghost var was := Cells();
      var k := FindElement(locs, e);
      if k == 8 {
        forall r ensures Copies(was, e, r) == 0 { NotLive(was, hash, unset, e, r); }
        return false;
      }
      assert locs[k] in locs;
      if erase {
        flags.Set(locs[k]);
        assert Cells() == was[locs[k] := was[locs[k]].(dead := true)];
        Erased(was, hash, unset, inserted, locs[k]);
      }
      KnownAt(was, inserted, unset, locs[k]);
      found := true;
    }
  }

  /** One of the eight locations of `e` holds it. */
  ghost predicate Held<T>(table: seq<T>, hash: (nat, T) -> nat, e: T) {
    exists i :: 0 <= i < 8 && Locations(hash, |table|, e)[i] < |table| && table[Locations(hash, |table|, e)[i]] == e
  }

  datatype Op<T> = Put(elem: T) | Query(elem: T, erase: bool)

  /** Over any run on a new cache, an element reported as contained was inserted before, or is the default. */
  method Run<T(==, !new)>(hash: (nat, T) -> nat, unset: T, size: nat, depth: nat, ops: seq<Op<T>>)
      returns (answers: seq<bool>)
    requires depth >= 1 && Max(2, size) + 7 < UINT32_RANGE
    ensures |answers| == |ops|
    ensures forall i :: 0 <= i < |ops| && answers[i] ==> Explained(ops, i, unset)
  {
    hide Placed, Known, Tally, Explained, Max;
    var c := new Cache<T>(hash, unset, size, depth);
    answers := [];
    for n := 0 to |ops|
      invariant c.Valid() && c.unset == unset && fresh(c) && fresh(c.table) && fresh(c.flags.mem) && fresh(c.epochFlags)
      invariant forall e :: e in c.inserted <==> Put(e) in ops[..n]
      invariant |answers| == n
      invariant forall i :: 0 <= i < n && answers[i] ==> Explained(ops, i, unset)
    {
      var answer := Perform(c, ops[n]);
      InsertedSoFar(ops, n, c.inserted, answer, unset);
      answers := answers + [answer];
    }
  }

  ghost predicate Explained<T>(ops: seq<Op<T>>, i: nat, unset: T)
    requires i < |ops|
  {
    ops[i].elem == unset || exists j :: 0 <= j < i && ops[j] == Put(ops[i].elem)
  }

  method Perform<T(==, !new)>(c: Cache<T>, op: Op<T>) returns (answer: bool)
    requires c.Valid()
    modifies c, c.table, c.flags.mem, c.epochFlags
    ensures c.Valid() && c.inserted == old(c.inserted) + if op.Put? then {op.elem} else {}
    ensures answer ==> op.Query? && (op.elem in c.inserted || op.elem == c.unset)
  {
    if op.Put? {
      var _, _ := c.Insert(op.elem);
      answer := false;
    } else {
      answer := c.Contains(op.elem, op.erase);
    }
  }

  lemma {:induction false} InsertedSoFar<T(!new)>(ops: seq<Op<T>>, n: nat, inserted: set<T>, answer: bool, unset: T)
    requires n < |ops| && answer ==> ops[n].Query? && (ops[n].elem in inserted || ops[n].elem == unset)
    requires n < |ops| && forall e :: e in inserted <==> Put(e) in ops[..n] || ops[n] == Put(e)
    ensures (forall e :: e in inserted <==> Put(e) in ops[..n + 1]) && (answer ==> Explained(ops, n, unset))
  {
    assert ops[..n + 1] == ops[..n] + [ops[n]];
    if answer && ops[n].elem != unset {
      assert Put(ops[n].elem) in ops[..n];
    }
  }

  /** The first index of `x`, or 8. */
  method Find(locs: seq<nat>, x: nat) returns (k: nat)
    requires |locs| == 8
    ensures k <= 8 && (k < 8 <==> x in locs) && (k < 8 ==> locs[k] == x)
  {
    k := 0;
    while k < 8 && locs[k] != x
      invariant k <= 8 && x !in locs[..k]
    {
      k := k + 1;
    }
    assert locs[..8] == locs;
  }

  lemma LiveIsPlaced<T>(cells: seq<Cell<T>>, hash: (nat, T) -> nat, unset: T, inserted: set<T>, i: nat)
    requires Placed(cells, hash, unset) && Known(cells, inserted, unset) && i < |cells| && !cells[i].dead
    ensures i in Locations(hash, |cells|, cells[i].elem) && (cells[i].elem in inserted || cells[i].elem == unset)
  {
    hide Locations;
  }

  lemma KnownMore<T>(cells: seq<Cell<T>>, inserted: set<T>, unset: T, e: T)
    requires Known(cells, inserted, unset)
    ensures Known(cells, inserted + {e}, unset)
  {
  }

  lemma KnownAt<T>(cells: seq<Cell<T>>, inserted: set<T>, unset: T, i: nat)
    requires Known(cells, inserted, unset) && i < |cells|
    ensures cells[i].elem in inserted || cells[i].elem == unset
  {
  }

  lemma Totals<T(!new)>(was: seq<Cell<T>>, now: seq<Cell<T>>, e: T, lost: Option<(T, bool)>)
    requires Conserved(was, now, e, lost)
    ensures Tally(now, true) <= Tally(was, true) + 1 && Tally(now, false) <= Tally(was, false)
  {
    hide Copies, Tally;
  }

  lemma {:induction false} NotLive<T>(cells: seq<Cell<T>>, hash: (nat, T) -> nat, unset: T, e: T, recent: bool)
    requires Placed(cells, hash, unset)
    requires forall k :: k in Locations(hash, |cells|, e) ==> k < |cells| && cells[k].elem != e
    ensures Copies(cells, e, recent) == 0
  {
    hide Copies, Locations;
    if Copies(cells, e, recent) > 0 {
      var i := LiveAt(cells, e, recent);
    }
  }

  lemma {:induction false} Erased<T>(cells: seq<Cell<T>>, hash: (nat, T) -> nat, unset: T, inserted: set<T>, i: nat)
    requires Placed(cells, hash, unset) && Known(cells, inserted, unset) && i < |cells|
    ensures var next := cells[i := cells[i].(dead := true)];
      && Placed(next, hash, unset) && Known(next, inserted, unset)
      && Tally(next, true) <= Tally(cells, true) && Tally(next, false) <= Tally(cells, false)
  {
    hide Locations, Tally;
    TallyUpdate(cells, i, cells[i].(dead := true), true);
    TallyUpdate(cells, i, cells[i].(dead := true), false);
  }

  lemma EmptyCells<T>(cells: seq<Cell<T>>, hash: (nat, T) -> nat, unset: T)
    requires forall i :: 0 <= i < |cells| ==> cells[i] == Cell(unset, true, false)
    ensures Placed(cells, hash, unset) && Known(cells, {}, unset) && Tally(cells, true) == 0 && Tally(cells, false) == 0
  {
    hide Tally, Locations;
    AllDead(cells, true);
    AllDead(cells, false);
  }

  lemma {:induction false} AllDead<T>(cells: seq<Cell<T>>, recent: bool)
    requires forall i :: 0 <= i < |cells| ==> cells[i].dead
    ensures Tally(cells, recent) == 0
  {
    if cells != [] { AllDead(cells[..|cells| - 1], recent); }
  }

  lemma {:induction false} AgedPlaced<T>(cells: seq<Cell<T>>, hash: (nat, T) -> nat, unset: T, inserted: set<T>)
    requires Placed(cells, hash, unset) && Known(cells, inserted, unset)
    ensures Placed(Aged(cells), hash, unset) && Known(Aged(cells), inserted, unset)
  {
    hide Locations;
  }
}
