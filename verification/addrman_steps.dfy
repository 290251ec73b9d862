/** The single updates the address manager's operations are made of, and what each
    keeps. Entries in `limbo` are in neither table and not counted while they move. */
module AddrManSteps {
  import opened AddrManModel

  function FreshEntry(a: Address, source: NetAddr, pos: nat): AddrInfo {
    AddrInfo(a.service, a.time, a.services, 0, 0, source, 0, 0, 0, false, pos)
  }

  // ---------- Creating an entry ----------

  function Created(s: State, a: Address, source: NetAddr): State {
    var id := s.idCount;
    s.(idCount := id + 1,
       info := s.info[id := FreshEntry(a, source, |s.random|)],
       addr := s.addr[a.service := id],
       random := s.random + [id],
       nNew := s.nNew + 1,
       counts := Adjust(s.counts, s.at.Network(a.service), 1, 0))
  }

  lemma {:induction false} CreatedKeeps(s: State, limbo: set<int>, a: Address, source: NetAddr)
    requires Structured(s, limbo) && limbo <= s.info.Keys && a.service !in s.addr && s.at.IsValid(a.service)
    ensures Structured(Created(s, a, source), limbo)
  {
    hide Shuffled, Addressed, TriedPlaced, NewPlaced, RefCounted, Tallies, Adjust;
    var t, id, kind := Created(s, a, source), s.idCount, New(s.at.Network(a.service));
    assert id !in s.info && id !in limbo;
    CreatedIndexes(s, a, source);
    CreatedTables(s, a, source);
    assert Kinds(t, limbo) == Kinds(s, limbo)[id := kind];
    Counts(s, limbo, t, limbo, id, kind);
  }

  lemma {:induction false} CreatedIndexes(s: State, a: Address, source: NetAddr)
    requires Shuffled(s) && Addressed(s) && Sensible(s) && a.service !in s.addr && s.at.IsValid(a.service)
    ensures var t := Created(s, a, source); Shuffled(t) && Addressed(t) && Sensible(t)
  {
    hide Adjust;
    assert s.idCount !in s.info;
    CreatedShuffled(s, a, source);
    hide Shuffled;
  }

  lemma {:induction false} CreatedShuffled(s: State, a: Address, source: NetAddr)
    requires Shuffled(s) && s.idCount !in s.info
    ensures Shuffled(Created(s, a, source))
  {
    hide Adjust;
  }

  lemma {:induction false} CreatedTables(s: State, a: Address, source: NetAddr)
    requires TriedPlaced(s) && NewPlaced(s) && RefCounted(s) && Sensible(s)
    ensures var t := Created(s, a, source); TriedPlaced(t) && NewPlaced(t) && RefCounted(t)
  {
    hide Placement.TriedSlot, Placement.Position, Adjust;
    var id := s.idCount;
    assert id !in s.info;
    assert BucketsOf(s.at, s.newTable, a.service, id) == {};
  }

  // ---------- Deleting the entry at the end of vRandom ----------

  function Dropped(s: State, id: int): State
    requires id in s.info && |s.random| > 0
  {
    var a := s.info[id].addr;
    s.(info := s.info - {id},
       addr := s.addr - {a},
       random := s.random[..|s.random| - 1],
       nNew := s.nNew - 1,
       counts := Adjust(s.counts, s.at.Network(a), -1, 0))
  }

  lemma {:induction false} DroppedKeeps(s: State, limbo: set<int>, id: int)
    requires Structured(s, limbo) && id in s.info && id !in limbo
    requires s.info[id].nRandomPos == |s.random| - 1 && !s.info[id].fInTried && s.info[id].nRefCount == 0
    ensures |s.random| > 0 && Structured(Dropped(s, id), limbo)
  {
    hide Shuffled, Addressed, TriedPlaced, NewPlaced, RefCounted, Tallies, Adjust, Sensible;
    DroppedIndexes(s, id);
    DroppedTables(s, id);
    var t, kind := Dropped(s, id), New(s.at.Network(s.info[id].addr));
    assert Kinds(s, limbo) == Kinds(t, limbo)[id := kind];
    Uncounts(s, limbo, t, limbo, id, kind);
  }

  lemma {:induction false} DroppedIndexes(s: State, id: int)
    requires Shuffled(s) && Addressed(s) && Sensible(s)
    requires id in s.info && s.info[id].nRandomPos == |s.random| - 1
    ensures |s.random| > 0
    ensures var t := Dropped(s, id); Shuffled(t) && Addressed(t) && Sensible(t)
  {
    hide Adjust;
  }

  lemma {:induction false} DroppedTables(s: State, id: int)
    requires |s.random| > 0 && TriedPlaced(s) && NewPlaced(s) && RefCounted(s)
    requires id in s.info && !s.info[id].fInTried && s.info[id].nRefCount == 0
    ensures var t := Dropped(s, id); TriedPlaced(t) && NewPlaced(t) && RefCounted(t)
  {
    hide BucketsOf, Placement.TriedSlot, Placement.NewSlot, Adjust;
    forall k | k in s.newTable ensures s.newTable[k] != id { NoRefsNoSlots(s, id, k); }
  }

  // ---------- Updates of one entry in place ----------

  ghost predicate SameIndexed(i: AddrInfo, j: AddrInfo) {
    i.addr == j.addr && i.nRandomPos == j.nRandomPos
  }

  /** The entry's name and its places stay; the indexes do not notice. */
  lemma {:induction false} InPlace(s: State, t: State, id: int, i: AddrInfo)
    requires Shuffled(s) && Addressed(s) && Sensible(s) && id in s.info && SameIndexed(i, s.info[id])
    requires i.nRefCount <= NEW_BUCKETS_PER_ADDRESS
    requires t.info == s.info[id := i] && t.at == s.at && t.addr == s.addr && t.random == s.random
    requires t.idCount == s.idCount && t.collisions == s.collisions
    ensures Shuffled(t) && Addressed(t) && Sensible(t)
  {
    assert forall j :: j in t.info ==> j in s.info && SameIndexed(t.info[j], s.info[j]);
  }

  ghost predicate SamePlace(i: AddrInfo, j: AddrInfo) {
    SameIndexed(i, j) && i.nRefCount == j.nRefCount && i.fInTried == j.fInTried
  }

  lemma {:induction false} UpdatedTables(s: State, t: State, id: int, i: AddrInfo)
    requires TriedPlaced(s) && NewPlaced(s) && RefCounted(s) && id in s.info && SamePlace(i, s.info[id])
    requires t.info == s.info[id := i] && t.at == s.at && t.triedTable == s.triedTable && t.newTable == s.newTable
    ensures TriedPlaced(t) && NewPlaced(t) && RefCounted(t)
  {
    hide BucketsOf, Placement.TriedSlot, Placement.NewSlot;
    assert forall j :: j in t.info ==> j in s.info && SamePlace(t.info[j], s.info[j]);
  }

  /** New statistics for an entry change nothing structural. */
  lemma {:induction false} UpdatedKeeps(s: State, limbo: set<int>, loose: set<int>, id: int, i: AddrInfo)
    requires Structured(s, limbo) && Referenced(s, loose) && id in s.info && SamePlace(i, s.info[id])
    ensures var t := s.(info := s.info[id := i]); Structured(t, limbo) && Referenced(t, loose)
  {
    hide Shuffled, Addressed, TriedPlaced, NewPlaced, RefCounted, Tallies;
    var t := s.(info := s.info[id := i]);
    InPlace(s, t, id, i);
    UpdatedTables(s, t, id, i);
    KindsSame(s, t, limbo);
  }

  // ---------- One reference from the new table ----------

  function Unreferenced(s: State, k: Slot): State
    requires k in s.newTable && s.newTable[k] in s.info
  {
    var id := s.newTable[k];
    s.(info := s.info[id := s.info[id].(nRefCount := s.info[id].nRefCount - 1)], newTable := s.newTable - {k})
  }

  lemma {:induction false} OccupantCounted(s: State, k: Slot)
    requires NewPlaced(s) && RefCounted(s) && k in s.newTable
    ensures s.newTable[k] in s.info && s.info[s.newTable[k]].nRefCount > 0 && !s.info[s.newTable[k]].fInTried
  {
    var id := s.newTable[k];
    assert k.bucket in BucketsOf(s.at, s.newTable, s.info[id].addr, id);
  }

  lemma {:induction false} UnreferencedTables(s: State, k: Slot)
    requires TriedPlaced(s) && NewPlaced(s) && RefCounted(s) && k in s.newTable && s.newTable[k] in s.info
    ensures var t := Unreferenced(s, k); TriedPlaced(t) && NewPlaced(t) && RefCounted(t)
  {
    hide BucketsOf, Placement.TriedSlot, Placement.NewSlot;
    var id := s.newTable[k];
    var t := Unreferenced(s, k);
    forall j | j in t.info ensures t.info[j].nRefCount == |BucketsOf(t.at, t.newTable, t.info[j].addr, j)| {
      ClearedRefs(s, k, j);
    }
  }

  /** Emptying a slot: the entry that was there has one reference less. */
  lemma {:induction false} UnreferencedKeeps(s: State, limbo: set<int>, k: Slot)
    requires Structured(s, limbo) && k in s.newTable
    ensures s.newTable[k] in s.info && s.info[s.newTable[k]].nRefCount > 0 && !s.info[s.newTable[k]].fInTried
    ensures Structured(Unreferenced(s, k), limbo)
  {
    hide Shuffled, Addressed, TriedPlaced, NewPlaced, RefCounted, Tallies;
    OccupantCounted(s, k);
    var id := s.newTable[k];
    var t := Unreferenced(s, k);
    InPlace(s, t, id, t.info[id]);
    UnreferencedTables(s, k);
    KindsSame(s, t, limbo);
  }

  function ReferencedAt(s: State, id: int, b: nat): State
    requires id in s.info
  {
    var i := s.info[id];
    s.(info := s.info[id := i.(nRefCount := i.nRefCount + 1)], newTable := s.newTable[s.at.NewSlot(i.addr, b) := id])
  }

  lemma {:induction false} ReferencedAtTables(s: State, id: int, b: nat)
    requires TriedPlaced(s) && NewPlaced(s) && RefCounted(s)
    requires id in s.info && !s.info[id].fInTried && b < NEW_BUCKETS && s.at.NewSlot(s.info[id].addr, b) !in s.newTable
    ensures var t := ReferencedAt(s, id, b); TriedPlaced(t) && NewPlaced(t) && RefCounted(t)
  {
    hide TriedPlaced, NewPlaced, RefCounted, ReferencedAt;
    ReferencedAtRefs(s, id, b);
    ReferencedAtTried(s, id, b);
    ReferencedAtNew(s, id, b);
  }

  lemma {:induction false} ReferencedAtTried(s: State, id: int, b: nat)
    requires TriedPlaced(s) && id in s.info && !s.info[id].fInTried
    ensures TriedPlaced(ReferencedAt(s, id, b))
  {
    hide Placement.TriedSlot, Placement.NewSlot;
  }

  lemma {:induction false} ReferencedAtNew(s: State, id: int, b: nat)
    requires NewPlaced(s) && id in s.info && !s.info[id].fInTried && b < NEW_BUCKETS
    ensures NewPlaced(ReferencedAt(s, id, b))
  {
    hide Placement.Position;
  }

  lemma {:induction false} ReferencedAtRefs(s: State, id: int, b: nat)
    requires RefCounted(s) && id in s.info && b < NEW_BUCKETS && s.at.NewSlot(s.info[id].addr, b) !in s.newTable
    ensures RefCounted(ReferencedAt(s, id, b))
  {
    hide BucketsOf, Placement.Position;
    var t := ReferencedAt(s, id, b);
    forall j | j in t.info ensures t.info[j].nRefCount == |BucketsOf(t.at, t.newTable, t.info[j].addr, j)| {
      FilledRefs(s.at, s.newTable, s.info[id].addr, id, b, s.info[j].addr, j);
    }
  }

  lemma {:induction false} ReferencedAtKeeps(s: State, limbo: set<int>, id: int, b: nat)
    requires Structured(s, limbo) && id in s.info && !s.info[id].fInTried && b < NEW_BUCKETS
    requires s.at.NewSlot(s.info[id].addr, b) !in s.newTable && s.info[id].nRefCount < NEW_BUCKETS_PER_ADDRESS
    ensures Structured(ReferencedAt(s, id, b), limbo)
  {
    hide Shuffled, Addressed, TriedPlaced, NewPlaced, RefCounted, Tallies, Placement.Position;
    var t := ReferencedAt(s, id, b);
    InPlace(s, t, id, t.info[id]);
    ReferencedAtTables(s, id, b);
    KindsSame(s, t, limbo);
  }

  // ---------- Moves between the tables ----------

  /** An unreferenced new entry stops being counted. */
  function LeftNew(s: State, id: int): State
    requires id in s.info
  {
    s.(nNew := s.nNew - 1, counts := Adjust(s.counts, s.at.Network(s.info[id].addr), -1, 0))
  }

  lemma {:induction false} LeftNewKeeps(s: State, limbo: set<int>, id: int)
    requires Structured(s, limbo) && id in s.info && id !in limbo && !s.info[id].fInTried
    ensures Structured(LeftNew(s, id), limbo + {id})
  {
    hide Shuffled, Addressed, TriedPlaced, NewPlaced, RefCounted, Tallies, Adjust;
    SameTablesKeep(s, LeftNew(s, id));
    var t, kind := LeftNew(s, id), New(s.at.Network(s.info[id].addr));
    assert Kinds(s, limbo) == Kinds(t, limbo + {id})[id := kind];
    Uncounts(s, limbo, t, limbo + {id}, id, kind);
  }

  /** It is counted as new again. */
  function EnteredNew(s: State, id: int): State
    requires id in s.info
  {
    s.(nNew := s.nNew + 1, counts := Adjust(s.counts, s.at.Network(s.info[id].addr), 1, 0))
  }

  lemma {:induction false} EnteredNewKeeps(s: State, limbo: set<int>, id: int)
    requires Structured(s, limbo) && id in s.info && id in limbo && !s.info[id].fInTried
    ensures Structured(EnteredNew(s, id), limbo - {id})
  {
    hide Shuffled, Addressed, TriedPlaced, NewPlaced, RefCounted, Tallies, Adjust;
    SameTablesKeep(s, EnteredNew(s, id));
    var t, kind := EnteredNew(s, id), New(s.at.Network(s.info[id].addr));
    assert Kinds(t, limbo - {id}) == Kinds(s, limbo)[id := kind];
    Counts(s, limbo, t, limbo - {id}, id, kind);
  }

  /** A tried entry leaves its slot and stops being counted. */
  function LeftTried(s: State, k: Slot): State
    requires k in s.triedTable && s.triedTable[k] in s.info
  {
    var id := s.triedTable[k];
    s.(info := s.info[id := s.info[id].(fInTried := false)], triedTable := s.triedTable - {k}, nTried := s.nTried - 1,
       counts := Adjust(s.counts, s.at.Network(s.info[id].addr), 0, -1))
  }

  lemma {:induction false} LeftTriedTables(s: State, k: Slot)
    requires TriedPlaced(s) && NewPlaced(s) && RefCounted(s) && k in s.triedTable && s.triedTable[k] in s.info
    ensures var t := LeftTried(s, k); TriedPlaced(t) && NewPlaced(t) && RefCounted(t)
  {
    hide BucketsOf, Placement.TriedSlot, Placement.NewSlot, Adjust;
    var id := s.triedTable[k];
  }

  lemma {:induction false} LeftTriedKeeps(s: State, limbo: set<int>, k: Slot)
    requires Structured(s, limbo) && k in s.triedTable && s.triedTable[k] !in limbo
    ensures s.triedTable[k] in s.info && Structured(LeftTried(s, k), limbo + {s.triedTable[k]})
  {
    hide Shuffled, Addressed, NewPlaced, RefCounted, Tallies, Adjust, Placement.TriedSlot;
    var id := s.triedTable[k];
    var t, kind := LeftTried(s, k), Tried(s.at.Network(s.info[id].addr));
    InPlace(s, t, id, t.info[id]);
    LeftTriedTables(s, k);
    assert Kinds(s, limbo) == Kinds(t, limbo + {id})[id := kind];
    Uncounts(s, limbo, t, limbo + {id}, id, kind);
  }

  /** An unreferenced entry takes its empty tried slot. */
  function EnteredTried(s: State, id: int): State
    requires id in s.info
  {
    s.(info := s.info[id := s.info[id].(fInTried := true)],
       triedTable := s.triedTable[s.at.TriedSlot(s.info[id].addr) := id],
       nTried := s.nTried + 1,
       counts := Adjust(s.counts, s.at.Network(s.info[id].addr), 0, 1))
  }

  lemma {:induction false} EnteredTriedTables(s: State, id: int)
    requires TriedPlaced(s) && NewPlaced(s) && RefCounted(s)
    requires id in s.info && !s.info[id].fInTried && s.info[id].nRefCount == 0
    requires s.at.TriedSlot(s.info[id].addr) !in s.triedTable
    ensures var t := EnteredTried(s, id); TriedPlaced(t) && NewPlaced(t) && RefCounted(t)
  {
    hide BucketsOf, Placement.TriedSlot, Placement.NewSlot, Adjust;
    forall k | k in s.newTable ensures s.newTable[k] != id { NoRefsNoSlots(s, id, k); }
  }

  lemma {:induction false} EnteredTriedKeeps(s: State, limbo: set<int>, id: int)
    requires Structured(s, limbo) && id in s.info && id in limbo && !s.info[id].fInTried && s.info[id].nRefCount == 0
    requires s.at.TriedSlot(s.info[id].addr) !in s.triedTable
    ensures Structured(EnteredTried(s, id), limbo - {id})
  {
    hide Shuffled, Addressed, NewPlaced, TriedPlaced, RefCounted, Tallies, Adjust, Placement.TriedSlot;
    var t, kind := EnteredTried(s, id), Tried(s.at.Network(s.info[id].addr));
    InPlace(s, t, id, t.info[id]);
    EnteredTriedTables(s, id);
    assert Kinds(t, limbo - {id}) == Kinds(s, limbo)[id := kind];
    Counts(s, limbo, t, limbo - {id}, id, kind);
  }
}
