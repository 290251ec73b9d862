/** Deleting, clearing a slot and moving between the tables, as whole steps, and the
    relation between an earlier and a later state of the address manager. */
module AddrManMoves {
  import opened AddrManModel
  import opened AddrManSteps

  // ---------- Later states ----------

  /** Nothing but the tables an entry is in and its random place differs. */
  ghost predicate SameStats(i: AddrInfo, j: AddrInfo) {
    && i.addr == j.addr && i.nTime == j.nTime && i.nServices == j.nServices && i.lastTry == j.lastTry
    && i.lastCountAttempt == j.lastCountAttempt && i.source == j.source && i.lastSuccess == j.lastSuccess
    && i.nAttempts == j.nAttempts
  }

  /** Ids are never reused for another address, and occupied tried slots stay occupied. */
  ghost predicate Later(s: State, t: State) {
    && t.at == s.at && s.idCount <= t.idCount
    && (forall id :: id in t.info && id in s.info ==> t.info[id].addr == s.info[id].addr && t.info[id].source == s.info[id].source)
    && (forall id :: id in t.info && id !in s.info ==> s.idCount <= id)
    && (forall k :: k in s.triedTable ==> k in t.triedTable)
  }

  lemma LaterReflexive(s: State)
    ensures Later(s, s)
  {
  }

  lemma {:induction false} LaterTransitive(s: State, t: State, u: State)
    requires Later(s, t) && Later(t, u) && Sensible(s)
    ensures Later(s, u)
  {
    forall id | id in u.info && id in s.info
      ensures u.info[id].addr == s.info[id].addr && u.info[id].source == s.info[id].source
    {
      assert 0 <= id < s.idCount;
      assert id in t.info;
    }
  }

  /** Known pending collisions keep an occupied target. */
  lemma {:induction false} PendingKept(s: State, t: State)
    requires Pending(s) && Sensible(s) && Later(s, t)
    requires forall id :: id in t.collisions ==>
      id in s.collisions || (id in t.info && s.at.TriedSlot(t.info[id].addr) in t.triedTable)
    ensures Pending(t)
  {
    hide Placement.TriedSlot;
  }

  lemma KnownId(s: State, limbo: set<int>, id: int)
    requires Structured(s, limbo) && id in s.info
    ensures 0 <= id < s.idCount && 0 <= s.info[id].nRefCount <= NEW_BUCKETS_PER_ADDRESS
  {
    hide Shuffled, Addressed, TriedPlaced, NewPlaced, Counted, BucketsOf;
  }

  // ---------- Delete ----------

  function Deleted(s: State, id: int): State
    requires Shuffled(s) && id in s.info
  {
    var last := |s.random| - 1;
    if s.info[id].nRandomPos == last then Dropped(s, id)
    else SwapKeeps(s, s.info[id].nRandomPos, last); Dropped(Swap(s, s.info[id].nRandomPos, last), id)
  }

  /** Exactly `id` is gone; the other entries and both tables are as before. */
  ghost predicate Without(s: State, t: State, id: int) {
    && (forall j :: j in t.info <==> j in s.info && j != id)
    && (forall j :: j in t.info ==> SameBut(t.info[j], s.info[j]))
    && t.at == s.at && t.idCount == s.idCount && t.triedTable == s.triedTable && t.newTable == s.newTable
    && t.lastGood == s.lastGood && t.collisions == s.collisions
  }

  /** Swapping an entry with the last one: only the random order differs. */
  lemma {:induction false} SwappedLast(s: State, id: int)
    requires Shuffled(s) && id in s.info && s.info[id].nRandomPos != |s.random| - 1
    ensures Deletable(s, id)
    ensures var t := Swap(s, s.info[id].nRandomPos, |s.random| - 1);
      Shuffled(t) && Reshuffled(s, t) && id in t.info && t.info[id].nRandomPos == |t.random| - 1 && SameBut(t.info[id], s.info[id])
  {
    var i, j := s.info[id].nRandomPos, |s.random| - 1;
    assert Deletable(s, id);
    SwapKeeps(s, i, j);
    SwappedPositions(s, i, j);
    hide Shuffled, Swap;
  }

  lemma {:induction false} SwappedPositions(s: State, i: nat, j: nat)
    requires i < |s.random| && j < |s.random| && i != j && s.random[i] in s.info && s.random[j] in s.info
    requires s.random[i] != s.random[j]
    ensures var t := Swap(s, i, j); |t.random| == |s.random| && s.random[i] in t.info && t.info[s.random[i]].nRandomPos == j
  {
  }

  ghost predicate Deletable(s: State, id: int) {
    && id in s.info && 0 <= s.info[id].nRandomPos < |s.random|
    && s.random[s.info[id].nRandomPos] in s.info && s.random[|s.random| - 1] in s.info
  }

  lemma {:induction false} DroppedEffect(s: State, t: State, id: int)
    requires id in t.info && |t.random| > 0 && (t == s || Reshuffled(s, t))
    ensures Without(s, Dropped(t, id), id)
  {
    hide Adjust;
    assert forall j :: j in t.info <==> j in s.info.Keys;
  }

  lemma {:induction false} DeletedKeeps(s: State, limbo: set<int>, id: int)
    requires Structured(s, limbo) && id in s.info && id !in limbo && !s.info[id].fInTried && s.info[id].nRefCount == 0
    ensures Structured(Deleted(s, id), limbo) && Without(s, Deleted(s, id), id)
  {
    hide Shuffled, Addressed, TriedPlaced, NewPlaced, RefCounted, Counted, Sensible, Swap, Dropped, Reshuffled, Without;
    if s.info[id].nRandomPos == |s.random| - 1 {
      DroppedKeeps(s, limbo, id);
      DroppedEffect(s, s, id);
    } else {
      SwappedLast(s, id);
      var t := Swap(s, s.info[id].nRandomPos, |s.random| - 1);
      ReshuffledTables(s, t);
      ReshuffledEntries(s, t, limbo, {});
      DroppedKeeps(t, limbo, id);
      DroppedEffect(s, t, id);
    }
  }

  // ---------- ClearNew ----------

  function ClearedNew(s: State, k: Slot): State
    requires Shuffled(s) && NewPlaced(s)
  {
    if k !in s.newTable then s else
    var id := s.newTable[k];
    var t := Unreferenced(s, k);
    if t.info[id].nRefCount != 0 then t else
    assert Shuffled(t); Deleted(t, id)
  }

  /** The slot is empty, and its occupant is gone exactly when that was its last reference. */
  ghost predicate Emptied(s: State, t: State, k: Slot) {
    && t.newTable == s.newTable - {k}
    && t.at == s.at && t.idCount == s.idCount && t.triedTable == s.triedTable
    && t.lastGood == s.lastGood && t.collisions == s.collisions
    && (forall j :: j in t.info ==> j in s.info && SameStats(t.info[j], s.info[j]) && t.info[j].fInTried == s.info[j].fInTried)
    && (forall j :: j in s.info && (k in s.newTable ==> j != s.newTable[k]) ==> j in t.info && SameBut(t.info[j], s.info[j]))
  }

  lemma {:induction false} EmptiedByUnreference(s: State, k: Slot)
    requires k in s.newTable && s.newTable[k] in s.info
    ensures Emptied(s, Unreferenced(s, k), k)
  {
    var id := s.newTable[k];
  }

  lemma {:induction false} EmptiedByDeletion(s: State, t: State, u: State, k: Slot)
    requires k in s.newTable && Emptied(s, t, k) && Without(t, u, s.newTable[k])
    ensures Emptied(s, u, k)
  {
  }

  lemma {:induction false} ReferencedAfterDeletion(s: State, t: State, loose: set<int>, id: int)
    requires Referenced(s, loose + {id}) && Without(s, t, id)
    ensures Referenced(t, loose)
  {
  }

  lemma {:induction false} ClearedNewKeeps(s: State, limbo: set<int>, loose: set<int>, k: Slot)
    requires Structured(s, limbo) && Referenced(s, loose)
    requires forall id :: id in limbo ==> id in s.info && s.info[id].nRefCount == 0
    ensures Structured(ClearedNew(s, k), limbo) && Referenced(ClearedNew(s, k), loose)
    ensures Emptied(s, ClearedNew(s, k), k)
  {
    hide Shuffled, Addressed, TriedPlaced, NewPlaced, RefCounted, Sensible, Counted, Deleted, Without;
    if k in s.newTable {
      UnreferencedKeeps(s, limbo, k);
      var id, t := s.newTable[k], Unreferenced(s, k);
      EmptiedByUnreference(s, k);
      if t.info[id].nRefCount == 0 {
        DeletedKeeps(t, limbo, id);
        var u := Deleted(t, id);
        EmptiedByDeletion(s, t, u, k);
        assert Referenced(t, loose + {id});
        ReferencedAfterDeletion(t, u, loose, id);
      }
    }
  }

  // ---------- Demotion: from tried back to new ----------

  function HomeBucket(s: State, id: int): nat
    requires id in s.info
  {
    s.at.NewBucket(s.info[id].addr, s.info[id].source)
  }

  function HomeSlot(s: State, id: int): Slot
    requires id in s.info
  {
    s.at.NewSlot(s.info[id].addr, HomeBucket(s, id))
  }

  lemma {:induction false} TriedHasNoRefs(s: State, id: int)
    requires NewPlaced(s) && RefCounted(s) && id in s.info && s.info[id].fInTried
    ensures s.info[id].nRefCount == 0
  {
    assert BucketsOf(s.at, s.newTable, s.info[id].addr, id) == {};
  }

  /** The occupant of tried slot `k` is back in the new table, in its own bucket; at most
      the entry that was there is gone. */
  ghost predicate Demoted(s: State, t: State, k: Slot) {
    && k in s.triedTable && s.triedTable[k] in s.info && s.triedTable[k] in t.info
    && t.triedTable == s.triedTable - {k}
    && t.newTable == s.newTable[HomeSlot(s, s.triedTable[k]) := s.triedTable[k]]
    && t.at == s.at && t.idCount == s.idCount && t.lastGood == s.lastGood && t.collisions == s.collisions
    && (forall j :: j in t.info ==> j in s.info && SameStats(t.info[j], s.info[j]))
    && (forall j :: j in s.info && j !in t.info ==>
        HomeSlot(s, s.triedTable[k]) in s.newTable && j == s.newTable[HomeSlot(s, s.triedTable[k])] && !s.info[j].fInTried)
    && (forall j :: j in s.info && s.info[j].nRefCount == 0 && j != s.triedTable[k] ==> j in t.info && SameBut(t.info[j], s.info[j]))
  }

  lemma {:induction false} TriedOccupant(s: State, k: Slot)
    requires TriedPlaced(s) && k in s.triedTable
    ensures var id := s.triedTable[k]; id in s.info && s.info[id].fInTried && k == s.at.TriedSlot(s.info[id].addr)
  {
  }

  /** First half: out of the tried table, and the home slot in the new table is cleared. */
  lemma {:induction false} DemotedOut(s: State, limbo: set<int>, k: Slot, id: int) returns (t: State, u: State)
    requires Structured(s, limbo) && Referenced(s, limbo) && k in s.triedTable && id == s.triedTable[k]
    requires forall j :: j in limbo ==> j in s.info && s.info[j].nRefCount == 0 && !s.info[j].fInTried
    ensures id in s.info && s.info[id].nRefCount == 0 && id !in limbo
    ensures t == LeftTried(s, k) && Structured(t, limbo + {id})
    ensures u == ClearedNew(t, HomeSlot(s, id)) && Structured(u, limbo + {id}) && Referenced(u, limbo + {id})
    ensures Emptied(t, u, HomeSlot(s, id)) && id in u.info && SameBut(u.info[id], t.info[id])
    ensures HomeSlot(s, id) in s.newTable ==> s.newTable[HomeSlot(s, id)] != id
  {
    hide Shuffled, Addressed, TriedPlaced, NewPlaced, RefCounted, Sensible, Counted, ClearedNew, Placement.NewSlot,
         Adjust;
    TriedOccupant(s, k);
    TriedHasNoRefs(s, id);
    LeftTriedKeeps(s, limbo, k);
    t := LeftTried(s, k);
    var home := HomeSlot(s, id);
    ClearedNewKeeps(t, limbo + {id}, limbo + {id}, home);
    u := ClearedNew(t, home);
    if home in t.newTable { NoRefsNoSlots(t, id, home); }
  }

  /** Second half: back into the new table and counted there. */
  lemma {:induction false} DemotedIn(u: State, limbo: set<int>, id: int, b: nat) returns (v: State)
    requires Structured(u, limbo + {id}) && Referenced(u, limbo + {id}) && id in u.info && id !in limbo
    requires !u.info[id].fInTried && u.info[id].nRefCount == 0 && b < NEW_BUCKETS
    requires u.at.NewSlot(u.info[id].addr, b) !in u.newTable
    ensures v == EnteredNew(ReferencedAt(u, id, b), id)
    ensures Structured(v, limbo) && Referenced(v, limbo)
  {
    hide Shuffled, Addressed, TriedPlaced, NewPlaced, RefCounted, Sensible, Counted, Placement.NewSlot, Adjust;
    ReferencedAtKeeps(u, limbo + {id}, id, b);
    var w := ReferencedAt(u, id, b);
    EnteredNewKeeps(w, limbo + {id}, id);
    v := EnteredNew(w, id);
    assert limbo + {id} - {id} == limbo;
  }

  lemma {:induction false} DemotedEffect(s: State, t: State, u: State, v: State, k: Slot, id: int)
    requires k in s.triedTable && id == s.triedTable[k] && id in s.info && t == LeftTried(s, k)
    requires NewPlaced(s) && RefCounted(s)
    requires Emptied(t, u, HomeSlot(s, id)) && id in u.info && SameBut(u.info[id], t.info[id])
    requires v == EnteredNew(ReferencedAt(u, id, HomeBucket(s, id)), id)
    ensures Demoted(s, v, k)
  {
    hide Placement.Position, Adjust, NewPlaced, RefCounted;
    var home := HomeSlot(s, id);
    if home in s.newTable { OccupantCounted(s, home); }
  }

  lemma {:induction false} DemotedKeeps(s: State, limbo: set<int>, k: Slot, id: int)
      returns (t: State, u: State, v: State)
    requires Structured(s, limbo) && Referenced(s, limbo) && k in s.triedTable && id == s.triedTable[k]
    requires forall j :: j in limbo ==> j in s.info && s.info[j].nRefCount == 0 && !s.info[j].fInTried
    ensures id in s.info && t == LeftTried(s, k) && Structured(t, limbo + {id})
    ensures u == ClearedNew(t, HomeSlot(s, id)) && id in u.info
    ensures u.info[id].nRefCount == 0 && u.at == s.at && u.info[id].addr == s.info[id].addr
    ensures HomeSlot(s, id) !in u.newTable
    ensures v == EnteredNew(ReferencedAt(u, id, HomeBucket(s, id)), id)
    ensures Structured(v, limbo) && Referenced(v, limbo) && Demoted(s, v, k)
  {
    hide Shuffled, Addressed, TriedPlaced, NewPlaced, RefCounted, Sensible, Counted, ClearedNew, Demoted,
         Placement.NewSlot, Adjust;
    t, u := DemotedOut(s, limbo, k, id);
    v := DemotedIn(u, limbo, id, HomeBucket(s, id));
    DemotedEffect(s, t, u, v, k, id);
  }

  // ---------- Promotion: from new to tried ----------

  function Strip(t: Table, id: int): Table {
    map k | k in t && t[k] != id :: t[k]
  }

  /** All references to `id` are gone. */
  function Stripped(s: State, id: int): State
    requires id in s.info
  {
    s.(info := s.info[id := s.info[id].(nRefCount := 0)], newTable := Strip(s.newTable, id))
  }

  /** What promoting `id` does: it takes its tried slot and leaves the new table; the former
      occupant is back in its new bucket, and at most the entry it replaces there is gone. */
  ghost predicate Promoted(s: State, t: State, id: int)
    requires id in s.info
  {
    var k := s.at.TriedSlot(s.info[id].addr);
    var rest := Strip(s.newTable, id);
    && t.at == s.at && t.idCount == s.idCount && t.lastGood == s.lastGood && t.collisions == s.collisions
    && t.triedTable == s.triedTable[k := id]
    && (forall j :: j in t.info ==> j in s.info && SameStats(t.info[j], s.info[j]))
    && id in t.info
    && (k !in s.triedTable ==> t.newTable == rest && forall j :: j in s.info ==> j in t.info)
    && (k in s.triedTable ==>
        var old_ := s.triedTable[k];
        && old_ in s.info && old_ != id && old_ in t.info
        && t.newTable == rest[HomeSlot(s, old_) := old_]
        && forall j :: j in s.info && j !in t.info ==> HomeSlot(s, old_) in rest && j == rest[HomeSlot(s, old_)])
  }

  lemma {:induction false} PromotedFree(s: State, id: int)
    requires id in s.info && s.at.TriedSlot(s.info[id].addr) !in s.triedTable
    ensures Promoted(s, EnteredTried(LeftNew(Stripped(s, id), id), id), id)
  {
    hide Placement.TriedSlot, HomeSlot, Adjust, Strip;
    var t := LeftNew(Stripped(s, id), id);
    var v := EnteredTried(t, id);
    assert forall j :: j in s.info ==> SameStats(v.info[j], s.info[j]);
  }

  lemma {:induction false} StrippedEffect(s: State, t: State, id: int)
    requires id in s.info && t == LeftNew(Stripped(s, id), id)
    ensures t.triedTable == s.triedTable && t.newTable == Strip(s.newTable, id) && t.at == s.at
    ensures t.idCount == s.idCount
    ensures t.lastGood == s.lastGood && t.collisions == s.collisions && t.info[id].nRefCount == 0
    ensures forall j :: j in t.info <==> j in s.info
    ensures forall j :: j in t.info ==> SameStats(t.info[j], s.info[j])
  {
    hide Adjust, Strip;
  }

  lemma {:induction false} EnteredTriedEffect(u: State, v: State, id: int)
    requires id in u.info && v == EnteredTried(u, id)
    ensures v.triedTable == u.triedTable[u.at.TriedSlot(u.info[id].addr) := id] && v.newTable == u.newTable
    ensures v.at == u.at
    ensures v.idCount == u.idCount && v.lastGood == u.lastGood && v.collisions == u.collisions
    ensures forall j :: j in v.info <==> j in u.info
    ensures forall j :: j in v.info ==> SameStats(v.info[j], u.info[j])
  {
    hide Adjust, Placement.TriedSlot;
  }

  lemma {:induction false} PromotedEvicting(s: State, t: State, u: State, id: int, k: Slot)
    requires id in s.info && t == LeftNew(Stripped(s, id), id) && k == s.at.TriedSlot(s.info[id].addr)
    requires k in s.triedTable && s.triedTable[k] != id && Demoted(t, u, k)
    ensures id in u.info && SameBut(u.info[id], t.info[id]) && Promoted(s, EnteredTried(u, id), id)
  {
    StrippedEffect(s, t, id);
    var v, e := EnteredTried(u, id), s.triedTable[k];
    EnteredTriedEffect(u, v, id);
    hide Placement.TriedSlot, Placement.NewSlot, Placement.NewBucket, Strip, LeftNew, Stripped, EnteredTried;
    assert HomeSlot(t, e) == HomeSlot(s, e);
    assert v.triedTable == s.triedTable[k := id];
  }

  // ---------- Insertion into the new table ----------

  /** The rule for giving an entry a slot: it is free, or another entry there is terrible or can
      spare a reference that this one needs. */
  predicate Insertable(s: State, id: int, k: Slot, now: int)
    requires NewPlaced(s) && id in s.info
  {
    k !in s.newTable
    || (var other := s.newTable[k];
        other != id && (IsTerrible(s.info[other], now) || (s.info[other].nRefCount > 1 && s.info[id].nRefCount == 0)))
  }

  /** What trying to put `id` into slot `k` does. */
  ghost predicate Inserting(s: State, t: State, id: int, k: Slot, inserted: bool) {
    && t.at == s.at && t.idCount == s.idCount && t.triedTable == s.triedTable
    && t.lastGood == s.lastGood && t.collisions == s.collisions
    && (forall j :: j in t.info ==> j in s.info && SameStats(t.info[j], s.info[j]) && t.info[j].fInTried == s.info[j].fInTried)
    && t.newTable == (if inserted then s.newTable[k := id] else s.newTable)
    && (forall j :: j in s.info && j !in t.info ==>
        if inserted then j != id && k in s.newTable && j == s.newTable[k] else j == id && s.info[id].nRefCount == 0)
    && (id in s.info && s.info[id].nRefCount == 0 && !inserted ==> id !in t.info)
  }

  lemma {:induction false} InsertedKeeps(s: State, id: int, b: nat, k: Slot) returns (u: State, v: State)
    requires Structured(s, {}) && Referenced(s, {id}) && id in s.info && !s.info[id].fInTried
    requires s.info[id].nRefCount < NEW_BUCKETS_PER_ADDRESS && b < NEW_BUCKETS && k == s.at.NewSlot(s.info[id].addr, b)
    requires k in s.newTable ==> s.newTable[k] != id
    ensures u == ClearedNew(s, k) && id in u.info && u.info[id].addr == s.info[id].addr && u.at == s.at
    ensures k !in u.newTable
    ensures v == ReferencedAt(u, id, b) && Inv(v) && Inserting(s, v, id, k, true)
  {
    hide Shuffled, Addressed, TriedPlaced, NewPlaced, RefCounted, Sensible, Counted, ClearedNew, Placement.NewSlot;
    ClearedNewKeeps(s, {}, {id}, k);
    u := ClearedNew(s, k);
    KnownId(u, {}, id);
    ReferencedAtKeeps(u, {}, id, b);
    v := ReferencedAt(u, id, b);
  }

  lemma {:induction false} RejectedKeeps(s: State, id: int, k: Slot)
    requires Structured(s, {}) && Referenced(s, {id}) && id in s.info && !s.info[id].fInTried
    requires s.info[id].nRefCount == 0
    ensures Inv(Deleted(s, id)) && Inserting(s, Deleted(s, id), id, k, false)
  {
    hide Shuffled, Addressed, TriedPlaced, NewPlaced, RefCounted, Sensible, Counted, Deleted;
    DeletedKeeps(s, {}, id);
    assert {} + {id} == {id};
    ReferencedAfterDeletion(s, Deleted(s, id), {}, id);
  }

  lemma {:induction false} LeftAloneKeeps(s: State, id: int, k: Slot)
    requires Structured(s, {}) && Referenced(s, {id}) && id in s.info && s.info[id].nRefCount > 0
    ensures Inv(s) && Inserting(s, s, id, k, false)
  {
    hide Shuffled, Addressed, TriedPlaced, NewPlaced, RefCounted, Sensible, Counted;
  }

  // ---------- Adding an address ----------

  /** What an attempt to add address `a` on the word of `source` does: at most its own slot
      changes hands, and at most the entry it replaces there disappears. */
  ghost predicate Added(s: State, t: State, a: Service, source: NetAddr, inserted: bool) {
    var k := s.at.NewSlot(a, s.at.NewBucket(a, source));
    && t.at == s.at && s.idCount <= t.idCount && t.triedTable == s.triedTable
    && t.lastGood == s.lastGood && t.collisions == s.collisions
    && (inserted ==> a in t.addr && t.newTable == s.newTable[k := t.addr[a]])
    && (!inserted ==> t.newTable == s.newTable)
    && (forall j :: j in t.info && j !in s.info ==> inserted && j == s.idCount && t.info[j].addr == a && TimedEntry(t.info[j]))
    && (forall j :: j in s.info && j !in t.info ==> inserted && k in s.newTable && j == s.newTable[k])
    && (forall j :: j in t.info && j in s.info ==> Known(t.info[j], s.info[j]) && (t.info[j].addr != a ==> SameStats(t.info[j], s.info[j])))
  }

  /** Only the time and services of an entry may differ, and where it is. */
  ghost predicate Known(i: AddrInfo, j: AddrInfo) {
    && i.addr == j.addr && i.source == j.source && i.lastTry == j.lastTry && i.lastSuccess == j.lastSuccess
    && i.lastCountAttempt == j.lastCountAttempt && i.nAttempts == j.nAttempts && i.fInTried == j.fInTried
  }

  lemma AddedUnroutable(s: State, a: Service, source: NetAddr)
    ensures Added(s, s, a, source, false)
  {
  }

  lemma {:induction false} AddedNothing(s: State, t: State, a: Service, source: NetAddr, id: int, i: AddrInfo)
    requires id in s.info && s.info[id].addr == a && Known(i, s.info[id]) && t == s.(info := s.info[id := i])
    ensures Added(s, t, a, source, false)
  {
    hide Placement.NewSlot, Placement.NewBucket;
  }

  lemma {:induction false} AddedKnown(s: State, t: State, u: State, a: Service, source: NetAddr, id: int,
                                      i: AddrInfo, inserted: bool)
    requires id in s.info && s.info[id].addr == a && Known(i, s.info[id]) && SamePlace(i, s.info[id])
    requires t == s.(info := s.info[id := i])
    requires Inserting(t, u, id, s.at.NewSlot(a, s.at.NewBucket(a, source)), inserted)
    requires s.info[id].nRefCount > 0 && Addressed(u)
    ensures Added(s, u, a, source, inserted)
  {
    hide Placement.NewSlot, Placement.NewBucket;
    if inserted { assert id in u.info && u.info[id].addr == a; }
  }

  lemma {:induction false} AddedUnknown(s: State, t: State, u: State, a: Service, source: NetAddr, i: AddrInfo,
                                        inserted: bool)
    requires Sensible(s) && Addressed(u) && i.addr == a && i.nRefCount == 0 && TimedEntry(i)
    requires t.info == s.info[s.idCount := i] && t.idCount == s.idCount + 1 && t.at == s.at
    requires t.triedTable == s.triedTable
    requires t.newTable == s.newTable && t.lastGood == s.lastGood && t.collisions == s.collisions
    requires Inserting(t, u, s.idCount, s.at.NewSlot(a, s.at.NewBucket(a, source)), inserted)
    ensures Added(s, u, a, source, inserted)
  {
    hide Placement.NewSlot, Placement.NewBucket;
    var id := s.idCount;
    assert id !in s.info;
    if inserted { assert id in u.info && u.info[id].addr == a; }
  }

  lemma {:induction false} AddedLater(s: State, t: State, a: Service, source: NetAddr, inserted: bool)
    requires Added(s, t, a, source, inserted) && Sensible(s)
    ensures Later(s, t) && (Timed(s) ==> Timed(t)) && (Pending(s) ==> Pending(t))
  {
    hide Placement.NewSlot, Placement.NewBucket, Placement.TriedSlot;
  }

  // ---------- A successful connection ----------

  /** The record of a successful connection. */
  function Succeeded(s: State, id: int, time: int): State
    requires id in s.info
  {
    s.(lastGood := time, info := s.info[id := s.info[id].(lastSuccess := time, lastTry := time, nAttempts := 0)])
  }

  /** The time of the last success and the pending collisions are not tied to the tables. */
  lemma {:induction false} BookkeepingKeeps(s: State, time: int, ids: set<int>)
    requires Inv(s) && forall id :: id in ids ==> id in s.collisions || id in s.info
    ensures Inv(s.(lastGood := time, collisions := ids))
  {
    hide Shuffled, Addressed, TriedPlaced, NewPlaced, RefCounted, Tallies;
    var t := s.(lastGood := time, collisions := ids);
    SameTablesKeep(s, t);
    KindsSame(s, t, {});
  }

  lemma {:induction false} SucceededKeeps(s: State, id: int, time: int)
    requires Inv(s) && id in s.info
    ensures Inv(Succeeded(s, id, time)) && Later(s, Succeeded(s, id, time))
  {
    hide Structured;
    BookkeepingKeeps(s, time, s.collisions);
    var i := s.info[id].(lastSuccess := time, lastTry := time, nAttempts := 0);
    UpdatedKeeps(s.(lastGood := time, collisions := s.collisions), {}, {}, id, i);
  }

  lemma {:induction false} PromotedLater(s: State, t: State, id: int)
    requires id in s.info && Promoted(s, t, id)
    ensures Later(s, t)
  {
    hide Placement.TriedSlot, HomeSlot, Strip;
  }

  /** Recording a success at `time` keeps the recorded times sensible exactly when the time is
      positive, or zero for an address that is not tried afterwards. */
  lemma {:induction false} SucceededTimed(s: State, t: State, id: int, time: int)
    requires Timed(s) && id in s.info && id in t.info
    requires forall j :: j in t.info ==> j in s.info && SameStats(t.info[j], Succeeded(s, id, time).info[j])
    requires forall j :: j in t.info && j != id && t.info[j].fInTried ==> s.info[j].fInTried
    ensures Timed(t) <==> time > 0 || (time == 0 && !t.info[id].fInTried)
  {
    assert SameStats(t.info[id], Succeeded(s, id, time).info[id]);
    assert Timed(t) ==> TimedEntry(t.info[id]);
  }

  lemma {:induction false} SucceededTimedExactly(s: State, t: State, id: int, time: int)
    requires id in s.info && id in t.info
    requires forall j :: j in t.info ==> j in s.info && SameStats(t.info[j], Succeeded(s, id, time).info[j])
    requires forall j :: j in t.info && j != id && t.info[j].fInTried ==> s.info[j].fInTried
    requires forall j :: j in s.info && j != id ==> j in t.info && (s.info[j].fInTried ==> t.info[j].fInTried)
    ensures Timed(t) <==> TimedBut(s, id) && (time > 0 || (time == 0 && !t.info[id].fInTried))
    ensures TimedBut(t, id) <==> TimedBut(s, id)
  {
    assert SameStats(t.info[id], Succeeded(s, id, time).info[id]);
    forall j | j in s.info && j != id ensures j in t.info && (TimedEntry(t.info[j]) <==> TimedEntry(s.info[j])) {
      assert j in t.info && SameStats(t.info[j], Succeeded(s, id, time).info[j]);
    }
  }

  /** Promotion into a free slot leaves all other entries where they are. */
  lemma {:induction false} PromotedOthers(s: State, t: State, id: int)
    requires id in s.info && Promoted(s, t, id) && TriedPlaced(s) && TriedPlaced(t)
    requires s.at.TriedSlot(s.info[id].addr) !in s.triedTable
    ensures forall j :: j in s.info ==> j in t.info && (s.info[j].fInTried ==> t.info[j].fInTried)
  {
    hide Placement.TriedSlot, HomeSlot, Strip;
    var k := s.at.TriedSlot(s.info[id].addr);
    forall j | j in s.info && s.info[j].fInTried ensures j in t.info && t.info[j].fInTried {
      var c := s.at.TriedSlot(s.info[j].addr);
      assert s.triedTable[c] == j && c != k;
      assert t.triedTable[c] == j;
    }
  }

  /** No entry but the promoted one becomes tried. */
  lemma {:induction false} PromotedTried(s: State, t: State, id: int)
    requires id in s.info && Promoted(s, t, id) && TriedPlaced(s) && TriedPlaced(t)
    ensures id in t.info && t.info[id].fInTried
    ensures forall j :: j in t.info && j != id && t.info[j].fInTried ==> s.info[j].fInTried
  {
    hide Placement.TriedSlot, HomeSlot, Strip;
    var k := s.at.TriedSlot(s.info[id].addr);
    assert t.triedTable[k] == id;
    forall j | j in t.info && j != id && t.info[j].fInTried ensures s.info[j].fInTried {
      var c := t.at.TriedSlot(t.info[j].addr);
      assert t.triedTable[c] == j && c != k;
      assert s.triedTable[c] == j;
    }
  }
}
