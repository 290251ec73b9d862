/** The cuckoo cache's table as a sequence of cells: which elements are live, and how
    many of them belong to the current and to the previous epoch. */
module CuckooModel {
  import opened Prelude

  /** A slot: what it holds, whether it may be overwritten, whether its element is recent. */
  datatype Cell<T> = Cell(elem: T, dead: bool, recent: bool)

  /** How many live copies of an element of the given epoch there are. */
  function Copies<T(==)>(cells: seq<Cell<T>>, e: T, recent: bool): nat {
    if cells == [] then 0 else
    Copies(cells[..|cells| - 1], e, recent) + CopyOf(cells[|cells| - 1], e, recent)
  }

  function CopyOf<T(==)>(c: Cell<T>, e: T, recent: bool): nat {
    if !c.dead && c.elem == e && c.recent == recent then 1 else 0
  }

  /** How many live elements belong to the given epoch. */
  function Tally<T>(cells: seq<Cell<T>>, recent: bool): nat {
    if cells == [] then 0 else
    Tally(cells[..|cells| - 1], recent) + TallyOf(cells[|cells| - 1], recent)
  }

  function TallyOf<T>(c: Cell<T>, recent: bool): nat {
    if !c.dead && c.recent == recent then 1 else 0
  }

  lemma {:induction false} CopiesUpdate<T>(cells: seq<Cell<T>>, i: nat, c: Cell<T>, e: T, recent: bool)
    requires i < |cells|
    ensures Copies(cells[i := c], e, recent) + CopyOf(cells[i], e, recent) == Copies(cells, e, recent) + CopyOf(c, e, recent)
  {
    hide CopyOf;
    var n := |cells| - 1;
    var next := cells[i := c];
    if i == n {
      assert next[..n] == cells[..n];
    } else {
      CopiesUpdate(cells[..n], i, c, e, recent);
      assert next[..n] == cells[..n][i := c];
    }
  }

  lemma {:induction false} TallyUpdate<T>(cells: seq<Cell<T>>, i: nat, c: Cell<T>, recent: bool)
    requires i < |cells|
    ensures Tally(cells[i := c], recent) + TallyOf(cells[i], recent) == Tally(cells, recent) + TallyOf(c, recent)
  {
    hide TallyOf;
    var n := |cells| - 1;
    var next := cells[i := c];
    if i == n {
      assert next[..n] == cells[..n];
    } else {
      TallyUpdate(cells[..n], i, c, recent);
      assert next[..n] == cells[..n][i := c];
    }
  }

  // ---------- A new epoch ----------

  /** The previous epoch becomes discardable and the current one becomes the previous. */
  function AgedCell<T>(c: Cell<T>): Cell<T> {
    if c.recent then c.(recent := false) else c.(dead := true)
  }

  function Aged<T>(cells: seq<Cell<T>>): (r: seq<Cell<T>>)
    ensures |r| == |cells| && forall i :: 0 <= i < |r| ==> r[i] == AgedCell(cells[i])
  {
    seq(|cells|, i requires 0 <= i < |cells| => AgedCell(cells[i]))
  }

  /** After ageing, the live elements are those of the former current epoch, and none is recent. */
  lemma {:induction false} AgedTally<T>(cells: seq<Cell<T>>)
    ensures Tally(Aged(cells), true) == 0 && Tally(Aged(cells), false) == Tally(cells, true)
  {
    if cells != [] {
      var n := |cells| - 1;
      AgedTally(cells[..n]);
      assert Aged(cells)[..n] == Aged(cells[..n]);
    }
  }

  lemma {:induction false} AgedCopies<T>(cells: seq<Cell<T>>, e: T)
    ensures Copies(Aged(cells), e, false) == Copies(cells, e, true) && Copies(Aged(cells), e, true) == 0
  {
    if cells != [] {
      var n := |cells| - 1;
      AgedCopies(cells[..n], e);
      assert Aged(cells)[..n] == Aged(cells[..n]);
    }
  }

  // ---------- Where elements may be ----------

  /** Maps a 32-bit hash onto [0, size). */
  function FastRange(x: nat, size: nat): nat {
    x * size / UINT32_RANGE
  }

  lemma {:induction false} FastRangeBound(x: nat, size: nat)
    requires x < UINT32_RANGE && size > 0
    ensures FastRange(x, size) < size
  {
    hide FastRange;
    ProductBound(x, size);
    Shifted(x * size, size);
    FastRangeIs(x, size);
  }

  lemma ProductBound(x: nat, size: nat)
    requires x < UINT32_RANGE && size > 0
    ensures x * size < UINT32_RANGE * size
  {
  }

  lemma Shifted(p: nat, size: nat)
    requires p < UINT32_RANGE * size
    ensures p / UINT32_RANGE < size
  {
  }

  lemma FastRangeIs(x: nat, size: nat)
    ensures FastRange(x, size) == x * size / UINT32_RANGE
  {
  }

  /** The eight locations of an element. */
  function Locations<T>(hash: (nat, T) -> nat, size: nat, e: T): (r: seq<nat>)
    ensures |r| == 8 && forall i :: 0 <= i < 8 ==> r[i] == FastRange(hash(i, e) % UINT32_RANGE, size)
  {
    var at := (i: nat) => FastRange(hash(i, e) % UINT32_RANGE, size);
    [at(0), at(1), at(2), at(3), at(4), at(5), at(6), at(7)]
  }

  lemma {:induction false} LocationsBound<T>(hash: (nat, T) -> nat, size: nat, e: T)
    requires size > 0
    ensures forall i :: 0 <= i < 8 ==> Locations(hash, size, e)[i] < size
  {
    hide FastRange;
    forall i | 0 <= i < 8 ensures Locations(hash, size, e)[i] < size {
      FastRangeBound(hash(i, e) % UINT32_RANGE, size);
    }
  }

  /** Each cell holds an element at one of its locations; a dead one may still hold the default. */
  ghost predicate Placed<T>(cells: seq<Cell<T>>, hash: (nat, T) -> nat, unset: T) {
    forall i :: 0 <= i < |cells| ==> i in Locations(hash, |cells|, cells[i].elem) || (cells[i].dead && cells[i].elem == unset)
  }

  /** Every element was inserted at some time, or is the default. */
  ghost predicate Known<T>(cells: seq<Cell<T>>, inserted: set<T>, unset: T) {
    forall i :: 0 <= i < |cells| ==> cells[i].elem in inserted || cells[i].elem == unset
  }

  lemma {:induction false} LiveAt<T>(cells: seq<Cell<T>>, e: T, recent: bool) returns (i: nat)
    requires Copies(cells, e, recent) > 0
    ensures i < |cells| && cells[i] == Cell(e, false, recent)
  {
    var n := |cells| - 1;
    if CopyOf(cells[n], e, recent) == 1 {
      i := n;
    } else {
      i := LiveAt(cells[..n], e, recent);
    }
  }

  // ---------- Conservation ----------

  function Unit<T(==)>(o: Option<(T, bool)>, e: T, recent: bool): nat {
    if o == Some((e, recent)) then 1 else 0
  }

  function UnitTally<T>(o: Option<(T, bool)>, recent: bool): nat {
    if o.Some? && o.value.1 == recent then 1 else 0
  }

  /** The live elements of `now` together with `lost` are those of `was` together with the recent `e`. */
  ghost predicate Conserved<T(!new)>(was: seq<Cell<T>>, now: seq<Cell<T>>, e: T, lost: Option<(T, bool)>) {
    && |now| == |was|
    && (forall x, r :: Copies(now, x, r) + Unit(lost, x, r) == Copies(was, x, r) + Unit(Some((e, true)), x, r))
    && (forall r :: Tally(now, r) + UnitTally(lost, r) == Tally(was, r) + UnitTally(Some((e, true)), r))
  }

  function Content<T>(c: Cell<T>): Option<(T, bool)> {
    if c.dead then None else Some((c.elem, c.recent))
  }

  lemma {:induction false} ConservedStart<T(!new)>(was: seq<Cell<T>>, e: T)
    ensures Conserved(was, was, e, Some((e, true)))
  {
  }

  /** Putting down the element in hand and taking up what was there, if it was live. */
  lemma {:induction false} ConservedStep<T(!new)>(was: seq<Cell<T>>, now: seq<Cell<T>>, e: T, hand: (T, bool), i: nat)
    requires Conserved(was, now, e, Some(hand)) && i < |now|
    ensures Conserved(was, now[i := Cell(hand.0, false, hand.1)], e, Content(now[i]))
  {
    hide Copies, Tally;
    var c := Cell(hand.0, false, hand.1);
    forall x, r ensures Copies(now[i := c], x, r) + Unit(Content(now[i]), x, r) == Copies(was, x, r) + Unit(Some((e, true)), x, r) {
      CopiesUpdate(now, i, c, x, r);
    }
    forall r ensures Tally(now[i := c], r) + UnitTally(Content(now[i]), r) == Tally(was, r) + UnitTally(Some((e, true)), r) {
      TallyUpdate(now, i, c, r);
    }
  }

  lemma {:induction false} PlacedStep<T>(cells: seq<Cell<T>>, hash: (nat, T) -> nat, unset: T, inserted: set<T>,
                                         i: nat, e: T, recent: bool)
    requires Placed(cells, hash, unset) && Known(cells, inserted, unset) && i < |cells|
    requires i in Locations(hash, |cells|, e) && (e in inserted || e == unset)
    ensures var next := cells[i := Cell(e, false, recent)]; Placed(next, hash, unset) && Known(next, inserted, unset)
  {
    hide Locations;
  }
}
