/** Writing a consistent address manager and reading the file back under the same
    network groups gives the same addresses in the same slots, up to a renaming of ids. */
module AddrManRoundTrip {
  import opened Prelude
  import opened AddrManModel
  import opened AddrManSteps
  import opened AddrManMoves
  import opened AddrMan
  import opened AddrManCheck
  import opened AddrManLoad
  import opened AddrManSave

  // ---------- The numbers fit ----------

  lemma {:induction false} Covered(ids: set<int>, s: seq<int>)
    requires forall id :: id in ids ==> id in s
    ensures |ids| <= |s|
  {
    if s == [] {
      assert (forall id :: id !in ids) ==> ids == {};
    } else {
      var rest, last := s[..|s| - 1], s[|s| - 1];
      assert s == rest + [last];
      Covered(ids - {last}, rest);
      SubsetSize(ids, (ids - {last}) + {last});
    }
  }

  lemma {:induction false} RowLength(t: Table, b: nat, i: nat)
    ensures |RowSlots(t, b, i)| <= i
  {
    if i > 0 { RowLength(t, b, i - 1); }
  }

  lemma {:induction false} AllLength(t: Table, n: nat)
    ensures |AllSlots(t, n)| <= n * BUCKET_SIZE
  {
    if n > 0 {
      AllLength(t, n - 1);
      RowLength(t, n - 1, BUCKET_SIZE);
    }
  }

  /** No more entries than slots. */
  lemma {:induction false} Fits(t: Table, n: nat, ids: set<int>)
    requires forall k :: k in t ==> k.bucket < n && k.pos < BUCKET_SIZE
    requires forall id :: id in ids ==> id in t.Values
    ensures |ids| <= n * BUCKET_SIZE
  {
    AllLength(t, n);
    var slots := AllSlots(t, n);
    forall k ensures k in slots <==> k in t { AllMembers(t, n, k); }
    var held := seq(|slots|, q requires 0 <= q < |slots| => assert slots[q] in slots; t[slots[q]]);
    forall id | id in ids ensures id in held {
      var k :| k in t && t[k] == id;
      var q :| 0 <= q < |slots| && slots[q] == k;
      assert held[q] == id;
    }
    Covered(ids, held);
  }

  lemma {:induction false} NewFits(s: State)
    requires Inv(s)
    ensures |NewOnes(s)| <= NEW_BUCKETS * BUCKET_SIZE
  {
    hide Shuffled, Addressed, Sensible, Counted, TriedPlaced;
    forall id | id in NewOnes(s) ensures id in s.newTable.Values {
      var bs := BucketsOf(s.at, s.newTable, s.info[id].addr, id);
      assert bs != {};
      SomeNetwork(bs);
      var b :| b in bs;
      assert s.newTable[s.at.NewSlot(s.info[id].addr, b)] == id;
    }
    Fits(s.newTable, NEW_BUCKETS, NewOnes(s));
  }

  lemma {:induction false} TriedFits(s: State)
    requires Inv(s)
    ensures |TriedOnes(s)| <= TRIED_BUCKETS * BUCKET_SIZE
  {
    hide Shuffled, Addressed, Sensible, Counted, NewPlaced, RefCounted;
    forall id | id in TriedOnes(s) ensures id in s.triedTable.Values {
      assert s.triedTable[s.at.TriedSlot(s.info[id].addr)] == id;
    }
    Fits(s.triedTable, TRIED_BUCKETS, TriedOnes(s));
  }

  lemma {:induction false} SavedCount(f: File)
    requires f.format == FILE_FORMAT && f.nUBuckets == 0x400 ^ BUCKETS_MARK
    ensures BucketCount(f) == NEW_BUCKETS
  {
    assert (0x400 ^ BUCKETS_MARK) ^ BUCKETS_MARK == 0x400 as bv32;
  }

  /** A written file is never refused. */
  lemma {:induction false} SavedAccepted(s: State, f: File, news: seq<int>, trieds: seq<int>, ids: map<int, int>)
    requires Inv(s) && Saved(s, f, news, trieds, ids)
    ensures !Refused(f) && BucketCount(f) == NEW_BUCKETS && SameBucketing(f, s.at.env)
  {
    hide Structured, RowIndexes, Referenced;
    SavedCount(f);
    NewFits(s);
    TriedFits(s);
    ListSize(news, NewOnes(s));
    ListSize(trieds, TriedOnes(s));
  }

  lemma {:induction false} ListSize(list: seq<int>, ids: set<int>)
    requires Distinct(list) && forall id :: id in list <==> id in ids
    ensures |list| == |ids|
  {
    DistinctSize(list);
    forall id: int ensures id in (set x | x in list) <==> id in ids {}
    assert (set id | id in list) == ids;
  }

  // ---------- The renaming ----------

  ghost function IndexIn(list: seq<int>, id: int): (i: nat)
    requires id in list
    ensures i < |list| && list[i] == id
  {
    if list[|list| - 1] == id then |list| - 1 else IndexIn(list[..|list| - 1], id)
  }

  /** The new name of each entry: untried entries come first, in file order. */
  ghost function Renaming(s: State, news: seq<int>, trieds: seq<int>): map<int, int>
    requires forall id :: id in news <==> id in NewOnes(s)
    requires forall id :: id in trieds <==> id in TriedOnes(s)
  {
    map id | id in s.info :: if s.info[id].fInTried then |news| + IndexIn(trieds, id) else IndexIn(news, id)
  }

  ghost function Rename(t: Table, names: map<int, int>): Table {
    map k | k in t && t[k] in names :: names[t[k]]
  }

  /** The stored part is kept, as are the reference count and the table; what is only in memory is reset. */
  ghost predicate Kept(i: AddrInfo, j: AddrInfo) {
    DiskOf(j) == DiskOf(i) && j.nRefCount == i.nRefCount && j.fInTried == i.fInTried && j.lastTry == 0 && j.lastCountAttempt == 0
  }

  /** The new names are exactly the ids of the new entries. */
  ghost predicate Covers(names: map<int, int>, info: map<int, AddrInfo>) {
    (forall id :: id in names ==> names[id] in info) && (forall j :: j in info ==> exists id :: id in names && names[id] == j)
  }

  ghost predicate Injective(names: map<int, int>) {
    forall x, y :: x in names && y in names && names[x] == names[y] ==> x == y
  }

  /** `t` is `s` under new names. */
  ghost predicate Renamed(s: State, t: State, names: map<int, int>) {
    && names.Keys == s.info.Keys && Covers(names, t.info) && Injective(names)
    && (forall id :: id in s.info ==> id in names && var j := names[id]; j in t.info && Kept(s.info[id], t.info[j]))
    && t.at == s.at && t.triedTable == Rename(s.triedTable, names) && t.newTable == Rename(s.newTable, names)
  }

  // ---------- After the entries are loaded ----------

  lemma {:induction false} TriedFacts(s: State, id: int)
    requires Inv(s) && id in s.info && s.info[id].fInTried
    ensures var k := s.at.TriedSlot(s.info[id].addr); k in s.triedTable && s.triedTable[k] == id && s.at.IsValid(s.info[id].addr)
  {
    hide Shuffled, Addressed, Counted, NewPlaced, RefCounted, Placement.TriedSlot;
  }

  lemma {:induction false} SavedSeparate(s: State, f: File, news: seq<int>, trieds: seq<int>, ids: map<int, int>)
    requires Inv(s) && Saved(s, f, news, trieds, ids)
    ensures Separate(s.at, f.triedInfos, f.nTried)
  {
    hide Inv, RowIndexes, Placement.TriedSlot;
    forall j | 0 <= j < |trieds|
      ensures var id := trieds[j]; var k := s.at.TriedSlot(f.triedInfos[j].addr);
        s.at.IsValid(f.triedInfos[j].addr) && k in s.triedTable && s.triedTable[k] == id
    {
      var id := trieds[j];
      assert id in trieds && id in TriedOnes(s);
      TriedFacts(s, id);
    }
    forall i, j | 0 <= i < j < |trieds| ensures s.at.TriedSlot(f.triedInfos[i].addr) != s.at.TriedSlot(f.triedInfos[j].addr) {
      assert trieds[i] != trieds[j];
    }
  }

  /** Entry `id` of `s` stands in `u` under its new name, without references. */
  ghost predicate Listed(s: State, u: State, names: map<int, int>) {
    && names.Keys == s.info.Keys && Covers(names, u.info) && Injective(names) && u.at == s.at
    && forall id :: id in s.info ==> id in names && var j := names[id];
         0 <= j && j in u.info && u.info[j] == Loaded(DiskOf(s.info[id]), s.info[id].fInTried, j)
  }

  lemma {:induction false} SavedListed(s: State, f: File, news: seq<int>, trieds: seq<int>, ids: map<int, int>,
                                       a: State, u: State)
    requires Inv(s) && Saved(s, f, news, trieds, ids) && !Refused(f)
    requires NewLoaded(a, f.newInfos, f.nNew) && TriedLoaded(u, a, f.nNew, f.triedInfos, f.nTried) && u.at == s.at
    ensures Listed(s, u, Renaming(s, news, trieds))
  {
    hide Inv, RowIndexes, Refused, Renaming, IndexIn, NewOnes, TriedOnes, Distinct, DiskOf, Loaded, Keyed;
    var names := Renaming(s, news, trieds);
    assert BothLists(s, news, trieds);
    RenamingOnto(s, news, trieds, u);
    forall id | id in s.info
      ensures id in names && var j := names[id]; 0 <= j && j in u.info && u.info[j] == Loaded(DiskOf(s.info[id]), s.info[id].fInTried, j)
    {
      RenamingOf(s, news, trieds, id);
      assert id in names;
      var j := names[id];
      assert j in a.info || f.nNew <= j < f.nNew + f.nTried;
    }
  }

  ghost predicate BothLists(s: State, news: seq<int>, trieds: seq<int>) {
    && Distinct(news) && (forall id :: id in news <==> id in NewOnes(s))
    && Distinct(trieds) && (forall id :: id in trieds <==> id in TriedOnes(s))
  }

  lemma {:induction false} RenamingOf(s: State, news: seq<int>, trieds: seq<int>, id: int)
    requires BothLists(s, news, trieds) && id in s.info
    ensures var names := Renaming(s, news, trieds);
      if s.info[id].fInTried then |news| <= names[id] < |news| + |trieds| && trieds[names[id] - |news|] == id
      else 0 <= names[id] < |news| && news[names[id]] == id
  {
    if s.info[id].fInTried { assert id in TriedOnes(s); } else { assert id in NewOnes(s); }
  }

  lemma {:induction false} RenamingAt(s: State, news: seq<int>, trieds: seq<int>, j: nat)
    requires BothLists(s, news, trieds) && j < |news| + |trieds|
    ensures exists id :: id in Renaming(s, news, trieds) && Renaming(s, news, trieds)[id] == j
  {
    hide Renaming, IndexIn;
    var id := if j < |news| then news[j] else trieds[j - |news|];
    assert id in if j < |news| then news else trieds;
    RenamingOf(s, news, trieds, id);
    RenamingKeys(s, news, trieds);
    assert Renaming(s, news, trieds)[id] == j;
  }

  lemma RenamingKeys(s: State, news: seq<int>, trieds: seq<int>)
    requires BothLists(s, news, trieds)
    ensures Renaming(s, news, trieds).Keys == s.info.Keys
  {
    hide IndexIn;
  }

  lemma {:induction false} RenamingOnto(s: State, news: seq<int>, trieds: seq<int>, u: State)
    requires BothLists(s, news, trieds)
    requires forall j: int :: j in u.info <==> 0 <= j < |news| + |trieds|
    ensures var names := Renaming(s, news, trieds); Covers(names, u.info) && Injective(names) && names.Keys == s.info.Keys
  {
    hide Renaming, IndexIn, Distinct, NewOnes, TriedOnes;
    var names := Renaming(s, news, trieds);
    RenamingKeys(s, news, trieds);
    forall id | id in names
      ensures id in s.info && 0 <= names[id] < |news| + |trieds|
        && id == if names[id] < |news| then news[names[id]] else trieds[names[id] - |news|]
    {
      RenamingOf(s, news, trieds, id);
    }
    forall j | j in u.info ensures exists id :: id in names && names[id] == j {
      RenamingAt(s, news, trieds, j);
    }
  }

  // ---------- Refilling the new table ----------

  /** The first `q` slots hold what they held, under new names; the others are empty. */
  ghost predicate Refilled(s: State, u: State, names: map<int, int>, slots: seq<Slot>, q: nat) {
    && q <= |slots|
    && (forall k :: k in u.newTable <==> k in slots[..q])
    && (forall k :: k in u.newTable ==> k in s.newTable && s.newTable[k] in names && u.newTable[k] == names[s.newTable[k]])
  }

  /** The slots of the new table, in file order. */
  ghost predicate SlotList(s: State, slots: seq<Slot>) {
    DistinctSlots(slots) && forall k :: k in slots <==> k in s.newTable
  }

  /** Entry `id` of `s` stands in `u` under its new name, with the same address. */
  ghost predicate Named(s: State, u: State, names: map<int, int>) {
    && Injective(names) && u.at == s.at
    && forall id :: id in s.info ==> id in names && var j := names[id]; j in u.info && u.info[j].addr == s.info[id].addr
  }

  /** An entry whose slot is still to come has fewer references than it had. */
  lemma {:induction false} RoomLeft(s: State, u: State, names: map<int, int>, slots: seq<Slot>, q: nat, id: int)
    requires NewPlaced(s) && RefCounted(s) && RefCounted(u) && Named(s, u, names)
    requires SlotList(s, slots) && q < |slots| && Refilled(s, u, names, slots, q)
    requires slots[q] in s.newTable && s.newTable[slots[q]] == id
    ensures id in s.info && id in names && names[id] in u.info && u.info[names[id]].nRefCount < s.info[id].nRefCount
  {
    hide Placement.Position;
    var k := slots[q];
    var j, a := names[id], s.info[id].addr;
    var had, has := BucketsOf(s.at, s.newTable, a, id), BucketsOf(u.at, u.newTable, a, j);
    assert k.bucket in had;
    assert k !in slots[..q];
    forall b | b in has ensures b in had && b != k.bucket {
      var c := u.at.NewSlot(a, b);
      assert names[s.newTable[c]] == j;
    }
    SubsetSize(has, had - {k.bucket});
  }

  lemma {:induction false} RefilledOne(s: State, u: State, names: map<int, int>, slots: seq<Slot>, q: nat, id: int)
    requires q < |slots| && Refilled(s, u, names, slots, q) && slots[q] in s.newTable && s.newTable[slots[q]] == id
    requires id in names && names[id] in u.info && slots[q] == u.at.NewSlot(u.info[names[id]].addr, slots[q].bucket)
    ensures Refilled(s, ReferencedAt(u, names[id], slots[q].bucket), names, slots, q + 1)
  {
    hide Placement.NewSlot;
    assert forall c :: c in slots[..q + 1] <==> c in slots[..q] || c == slots[q];
  }

  lemma {:induction false} SlotFacts(s: State, k: Slot)
    requires Inv(s) && k in s.newTable
    ensures var id := s.newTable[k];
      && id in s.info && !s.info[id].fInTried && s.at.IsValid(s.info[id].addr) && s.info[id].nRefCount <= NEW_BUCKETS_PER_ADDRESS
      && k == s.at.NewSlot(s.info[id].addr, k.bucket) && k.bucket < NEW_BUCKETS && k.pos < BUCKET_SIZE
    ensures NewPlaced(s) && RefCounted(s)
  {
    hide Shuffled, Addressed, TriedPlaced, Counted, RefCounted;
  }

  lemma {:induction false} RefillStep(s: State, u: State, names: map<int, int>, slots: seq<Slot>, q: nat, e: Entry)
    requires Inv(s) && RefCounted(u) && Named(s, u, names)
    requires SlotList(s, slots) && q < |slots| && Refilled(s, u, names, slots, q)
    requires slots[q] in s.newTable && s.newTable[slots[q]] in names
    requires e == Entry(slots[q].bucket, names[s.newTable[slots[q]]])
    ensures e.index in u.info && Refilled(s, RestoredEntry(u, e, true), names, slots, q + 1)
  {
    var k := slots[q];
    var id := s.newTable[k];
    hide Inv, NewPlaced, RefCounted, Placement.NewSlot, Placement.NewBucket, ReferencedAt, Refilled, Injective,
         SlotList;
    SlotFacts(s, k);
    RoomLeft(s, u, names, slots, q, id);
    RefilledOne(s, u, names, slots, q, id);
    NotYet(s, u, names, slots, q);
    assert RestoredEntry(u, e, true) == ReferencedAt(u, e.index, e.bucket);
  }

  lemma NotYet(s: State, u: State, names: map<int, int>, slots: seq<Slot>, q: nat)
    requires SlotList(s, slots) && q < |slots| && Refilled(s, u, names, slots, q)
    ensures slots[q] !in u.newTable
  {
  }

  /** The entries read are those of the slots, under new names. */
  ghost predicate InFileOrder(s: State, names: map<int, int>, slots: seq<Slot>, entries: seq<Entry>) {
    |entries| == |slots| && forall i :: 0 <= i < |slots| ==>
      slots[i] in s.newTable && s.newTable[slots[i]] in names && entries[i] == Entry(slots[i].bucket, names[s.newTable[slots[i]]])
  }

  /** All listed slots are refilled, one after the other. */
  lemma {:induction false} Refill(s: State, names: map<int, int>, slots: seq<Slot>, entries: seq<Entry>,
                                  states: seq<State>, q: nat,
                                  n: nat, nNew: int, nTried: int)
    requires Inv(s) && SlotList(s, slots) && InFileOrder(s, names, slots, entries) && |states| == |slots| + 1
    requires q <= |slots|
    requires forall e :: e in entries ==> e.bucket < NEW_BUCKETS && e.index in states[0].info && !states[0].info[e.index].fInTried
    requires Restoring(states, entries, true) && Loading(states[0], n, nNew, nTried) && states[0].newTable == map[]
    requires Named(s, states[0], names)
    ensures Restorable(states[q], states[0], n, nNew, nTried) && Refilled(s, states[q], names, slots, q)
  {
    hide Structured, Referenced, Loading, RestoredEntry, Refilled;
    if q == 0 {
      RefilledNone(s, states[0], names, slots);
    } else {
      Refill(s, names, slots, entries, states, q - 1, n, nNew, nTried);
      var u, e := states[q - 1], entries[q - 1];
      assert e in entries;
      StillNamed(s, states[0], u, names, n, nNew, nTried);
      RefillStep(s, u, names, slots, q - 1, e);
      RestoredEntryKeeps(u, states[0], e, true, n, nNew, nTried);
    }
  }

  lemma RefilledNone(s: State, u: State, names: map<int, int>, slots: seq<Slot>)
    requires u.newTable == map[]
    ensures Refilled(s, u, names, slots, 0)
  {
  }

  lemma {:induction false} StillNamed(s: State, was: State, u: State, names: map<int, int>, n: nat, nNew: int,
                                      nTried: int)
    requires Named(s, was, names) && Restorable(u, was, n, nNew, nTried)
    ensures Named(s, u, names) && RefCounted(u)
  {
    hide Shuffled, NotStale, TriedPlaced, NewPlaced, ValidPlaced, Bounded, Tallies, RefCounted, Injective;
  }

  // ---------- The round trip ----------

  lemma {:induction false} SavedSlots(s: State)
    requires Inv(s)
    ensures SlotList(s, AllSlots(s.newTable, NEW_BUCKETS))
  {
    hide Inv, AllSlots, DistinctSlots;
    AllDistinct(s.newTable, NEW_BUCKETS);
    forall k ensures k in AllSlots(s.newTable, NEW_BUCKETS) <==> k in s.newTable {
      AllMembers(s.newTable, NEW_BUCKETS, k);
      if k in s.newTable { SlotFacts(s, k); }
    }
  }

  lemma {:induction false} SavedIndex(s: State, f: File, news: seq<int>, trieds: seq<int>, ids: map<int, int>, k: Slot)
    requires Inv(s) && Saved(s, f, news, trieds, ids) && k in s.newTable
    ensures var id := s.newTable[k]; id in Renaming(s, news, trieds) && Index(s.newTable, ids, k) == Renaming(s, news, trieds)[id]
    ensures 0 <= Index(s.newTable, ids, k) < f.nNew
  {
    hide Inv, RowIndexes, Distinct;
    SlotFacts(s, k);
    var id := s.newTable[k];
    assert id in NewOnes(s) && id in news;
    RenamingOf(s, news, trieds, id);
  }

  lemma {:induction false} NamesListed(s: State, ids: map<int, int>, names: map<int, int>, slots: seq<Slot>,
                                       entries: seq<Entry>)
    requires Lists(entries, slots, s.newTable, ids) && SlotList(s, slots)
    requires forall k :: k in s.newTable ==> var id := s.newTable[k]; id in names && Index(s.newTable, ids, k) == names[id]
    ensures InFileOrder(s, names, slots, entries)
  {
    hide Index;
    forall i | 0 <= i < |slots| ensures slots[i] in s.newTable { assert slots[i] in slots; }
  }

  lemma {:induction false} SavedEntries(s: State, f: File, news: seq<int>, trieds: seq<int>, ids: map<int, int>)
    requires Inv(s) && Saved(s, f, news, trieds, ids) && !Refused(f)
    ensures InFileOrder(s, Renaming(s, news, trieds), AllSlots(s.newTable, NEW_BUCKETS), FileEntries(f))
  {
    SavedCount(f);
    hide Inv, RowIndexes, Distinct, AllSlots, Entries, Renaming, BucketCount, Index, NewOnes, TriedOnes, InFileOrder,
         Lists, SlotList;
    forall k | k in s.newTable
      ensures var id := s.newTable[k]; id in Renaming(s, news, trieds) && Index(s.newTable, ids, k) == Renaming(s, news, trieds)[id]
      ensures 0 <= Index(s.newTable, ids, k) < f.nNew
    {
      SavedIndex(s, f, news, trieds, ids, k);
    }
    EntriesReadBack(s.newTable, ids, f.buckets, NEW_BUCKETS, f.nNew);
    SavedSlots(s);
    NamesListed(s, ids, Renaming(s, news, trieds), AllSlots(s.newTable, NEW_BUCKETS), FileEntries(f));
  }

  lemma {:induction false} NameOf(s: State, u: State, names: map<int, int>, j: int) returns (id: int)
    requires Listed(s, u, names) && j in u.info
    ensures id in s.info && id in names && names[id] == j
  {
    id :| id in names && names[id] == j;
    assert id in names.Keys;
  }

  /** The tried table is filled with the same entries, under new names. */
  lemma {:induction false} TriedRenamed(s: State, u: State, names: map<int, int>)
    requires TriedPlaced(s) && TriedPlaced(u) && Listed(s, u, names)
    ensures u.triedTable == Rename(s.triedTable, names)
  {
    hide Placement.TriedSlot;
    var r := Rename(s.triedTable, names);
    forall k ensures k in u.triedTable ==> k in r && r[k] == u.triedTable[k] {
      if k in u.triedTable {
        var j := u.triedTable[k];
        var id := NameOf(s, u, names, j);
        assert s.triedTable[s.at.TriedSlot(s.info[id].addr)] == id;
      }
    }
    forall k ensures k in r ==> k in u.triedTable {
      if k in r {
        var id := s.triedTable[k];
        var j := names[id];
        assert u.info[j].fInTried;
      }
    }
  }

  lemma {:induction false} NewRenamed(s: State, u: State, names: map<int, int>, slots: seq<Slot>)
    requires SlotList(s, slots) && Refilled(s, u, names, slots, |slots|)
    ensures u.newTable == Rename(s.newTable, names)
  {
    assert slots[..|slots|] == slots;
  }

  lemma {:induction false} SameRefs(s: State, u: State, names: map<int, int>, id: int)
    requires RefCounted(s) && RefCounted(u) && Named(s, u, names) && NewPlaced(s) && id in s.info
    requires u.newTable == Rename(s.newTable, names)
    ensures u.info[names[id]].nRefCount == s.info[id].nRefCount
  {
    hide Placement.NewSlot;
    var a := s.info[id].addr;
    assert BucketsOf(u.at, u.newTable, a, names[id]) == BucketsOf(s.at, s.newTable, a, id);
  }

  /** Between the entries and the slots: everything is listed, and nothing was lost. */
  lemma {:induction false} EntriesBack(s: State, f: File, news: seq<int>, trieds: seq<int>, ids: map<int, int>,
                                       blank: State, g: Stages, t: State)
    requires Inv(s) && Saved(s, f, news, trieds, ids) && !Refused(f) && blank.at.env == s.at.env
    requires Phases(f, blank, g, t)
    ensures g.nLost == 0 && Listed(s, g.tried, Renaming(s, news, trieds))
    ensures g.tried.triedTable == Rename(s.triedTable, Renaming(s, news, trieds))
    ensures Keyed(g.tried) && g.tried.newTable == map[] && g.tried.at == s.at
  {
    assert TriedPlaced(s);
    hide Inv, Loading, Restoring, Restorable, Pruned, Entries, BucketCount, Renaming, Rename, RowIndexes, Separate,
         NewOnes, TriedOnes;
    SavedSeparate(s, f, news, trieds, ids);
    assert g.tried.at == s.at;
    SavedListed(s, f, news, trieds, ids, g.new_, g.tried);
    LoadingNext(g.tried, g.tried.idCount, f.nNew, g.tried.idCount - f.nNew);
    TriedRenamed(s, g.tried, Renaming(s, news, trieds));
  }

  lemma {:induction false} ListedNamed(s: State, a: State, u: State, names: map<int, int>)
    requires Listed(s, a, names) && u.info == a.info && u.at == a.at
    ensures Named(s, u, names)
  {
  }

  /** After the slots: every entry has the references it had. */
  lemma {:induction false} SlotsBack(s: State, f: File, news: seq<int>, trieds: seq<int>, ids: map<int, int>,
                                     blank: State, g: Stages, t: State)
    requires Inv(s) && Saved(s, f, news, trieds, ids) && !Refused(f) && blank.at.env == s.at.env
    requires Phases(f, blank, g, t)
    ensures var u, names := g.restoring[|FileEntries(f)|], Renaming(s, news, trieds);
      && u.newTable == Rename(s.newTable, names) && Named(s, u, names)
      && forall id :: id in s.info ==> id in names && names[id] in u.info && u.info[names[id]].nRefCount == s.info[id].nRefCount
  {
    hide Inv, Loading, Restorable, Pruned, Entries, BucketCount, Renaming, Rename, Restoring, RowIndexes, Listed,
         Named, NewLoaded, AllSlots;
    var names, slots, entries := Renaming(s, news, trieds), AllSlots(s.newTable, NEW_BUCKETS), FileEntries(f);
    var u0, q := g.restoring[0], |entries|;
    EntriesBack(s, f, news, trieds, ids, blank, g, t);
    SavedAccepted(s, f, news, trieds, ids);
    SavedSlots(s);
    SavedEntries(s, f, news, trieds, ids);
    LoadedReady(f, g.new_, g.tried, u0, g.nLost, entries);
    ListedNamed(s, g.tried, u0, names);
    Refill(s, names, slots, entries, g.restoring, q, g.tried.idCount, f.nNew, f.nTried);
    NewRenamed(s, g.restoring[q], names, slots);
    StillNamed(s, u0, g.restoring[q], names, g.tried.idCount, f.nNew, f.nTried);
    RefsBack(s, g.restoring[q], names);
  }

  lemma {:induction false} RefsBack(s: State, u: State, names: map<int, int>)
    requires Inv(s) && RefCounted(u) && Named(s, u, names) && u.newTable == Rename(s.newTable, names)
    ensures forall id :: id in s.info ==> id in names && names[id] in u.info && u.info[names[id]].nRefCount == s.info[id].nRefCount
  {
    hide Shuffled, Addressed, TriedPlaced, Counted, Sensible, RefCounted, NewPlaced, Rename;
    forall id | id in s.info
      ensures id in names && names[id] in u.info && u.info[names[id]].nRefCount == s.info[id].nRefCount
    {
      SameRefs(s, u, names, id);
    }
  }

  /** Nothing is pruned: the entries before pruning are those after it. */
  lemma {:induction false} NothingPruned(s: State, a: State, u: State, t: State, names: map<int, int>, n: nat,
                                         nNew: int, nTried: int)
    requires Inv(s) && Listed(s, a, names) && Keyed(a) && Pruned(u, t, u.info.Keys)
    requires Restorable(u, a.(nTried := nTried), n, nNew, nTried)
    requires forall id :: id in s.info ==> id in names && names[id] in u.info && u.info[names[id]].nRefCount == s.info[id].nRefCount
    ensures Covers(names, t.info) && t.at == s.at && Keyed(t) && t.triedTable == a.triedTable
    ensures t.newTable == u.newTable
    ensures forall id :: id in s.info ==> names[id] in t.info && Kept(s.info[id], t.info[names[id]])
  {
    hide Structured, Loading, Injective;
    forall j | j in u.info ensures Alive(u, j) {
      var id := NameOf(s, a, names, j);
    }
    forall j: int ensures j in t.info <==> j in a.info {
      assert j in u.info <==> j in u.info.Keys;
    }
    forall id | id in s.info ensures names[id] in t.info && Kept(s.info[id], t.info[names[id]]) {
      var j := names[id];
      assert j in a.info && u.info[j] == a.info[j].(nRefCount := u.info[j].nRefCount);
    }
  }

  /** Reading back what was written of a consistent manager succeeds and loses nothing. */
  lemma {:induction false} RoundTrip(s: State, f: File, news: seq<int>, trieds: seq<int>, ids: map<int, int>,
                                     blank: State, g: Stages, t: State)
    requires Inv(s) && Timed(s) && Saved(s, f, news, trieds, ids) && !Refused(f) && blank.at.env == s.at.env
    requires Phases(f, blank, g, t)
    ensures Renamed(s, t, Renaming(s, news, trieds)) && Consistent(t)
  {
    hide Inv, Timed, Loading, Restorable, Pruned, Entries, BucketCount, Renaming, Rename, Restoring, RowIndexes,
         NewLoaded, TriedSoFar, Consistent, Named;
    hide Distinct, NewOnes, TriedOnes, Kept, Covers, Injective, Saved, Keyed;
    SavedLists(s, f, news, trieds, ids);
    var names, u := Renaming(s, news, trieds), g.restoring[|FileEntries(f)|];
    EntriesBack(s, f, news, trieds, ids, blank, g, t);
    SlotsBack(s, f, news, trieds, ids, blank, g, t);
    NothingPruned(s, g.tried, u, t, names, g.tried.idCount, f.nNew, f.nTried);
    PrunedAll(u, t);
    RestoredCollisions(u, g.restoring[0], g.tried.idCount, f.nNew, f.nTried);
    TriedCollisions(g.tried, g.new_, f, g.nLost);
    LoadedUnchecked(t);
    RenamedInv(s, t, names);
    InvIffConsistent(t);
  }

  lemma SavedLists(s: State, f: File, news: seq<int>, trieds: seq<int>, ids: map<int, int>)
    requires Saved(s, f, news, trieds, ids)
    ensures BothLists(s, news, trieds)
  {
  }

  lemma RestoredCollisions(u: State, was: State, n: nat, nNew: int, nTried: int)
    requires Restorable(u, was, n, nNew, nTried)
    ensures u.collisions == was.collisions
  {
    hide Loading;
  }

  lemma TriedCollisions(u: State, was: State, f: File, nLost: nat)
    requires f.nNew >= 0 && f.nTried >= 0 && TriedSoFar(u, was, f.nNew, f.triedInfos, f.nTried, nLost)
    ensures u.collisions == was.collisions
  {
    hide Loading, Separate, TriedLoaded;
  }

  /** Renaming keeps addresses apart and times sensible, so the loaded manager has the whole invariant. */
  lemma {:induction false} RenamedInv(s: State, t: State, names: map<int, int>)
    requires Inv(s) && Timed(s) && Renamed(s, t, names)
    requires Loading(t, t.idCount, t.nNew, t.nTried) && Referenced(t, {}) && Keyed(t) && Unchecked(t)
    ensures Inv(t) && Timed(t)
  {
    RenamedAddressed(s, t, names);
    RenamedTimed(s, t, names);
    hide Shuffled, TriedPlaced, NewPlaced, RefCounted, Addressed, Tallies, Renamed, Timed, Counted;
    LoadedCounted(t);
    KeyKept(s);
  }

  lemma LoadedCounted(t: State)
    requires Tallies(Kinds(t, {}), t.nNew, t.nTried, t.counts)
    ensures Counted(t, {})
  {
  }

  lemma KeyKept(s: State)
    requires Inv(s)
    ensures s.at.key != 0
  {
  }

  lemma {:induction false} RenamedAddressed(s: State, t: State, names: map<int, int>)
    requires Inv(s) && Renamed(s, t, names) && NotStale(t) && Keyed(t)
    ensures Addressed(t)
  {
    hide Shuffled, TriedPlaced, NewPlaced, RefCounted, Counted, Sensible, Rename;
    forall j | j in t.info ensures var a := t.info[j].addr; a in t.addr && t.addr[a] == j {
      var a := t.info[j].addr;
      var i := t.addr[a];
      assert i in t.info && t.info[i].addr == a;
      var x :| x in names && names[x] == j;
      var y :| y in names && names[y] == i;
      assert x in names.Keys && y in names.Keys;
      assert s.addr[s.info[x].addr] == x && s.addr[s.info[y].addr] == y;
    }
  }

  lemma {:induction false} RenamedTimed(s: State, t: State, names: map<int, int>)
    requires Timed(s) && Renamed(s, t, names)
    ensures Timed(t)
  {
    hide Rename;
    forall j | j in t.info ensures TimedEntry(t.info[j]) {
      var x :| x in names && names[x] == j;
      assert x in names.Keys;
      assert TimedEntry(s.info[x]);
    }
  }

  /** Serialize, then Unserialize into a new manager over the same network groups. */
  method SaveAndLoad(m: AddrManImpl, order: seq<int>)
      returns (loaded: AddrManImpl, threw: bool, ghost names: map<int, int>)
    requires m.Shaped() && Inv(m.St()) && Timed(m.St()) && Enumerates(order, m.St())
    ensures !threw && Inv(loaded.St()) && Renamed(m.St(), loaded.St(), names)
  {
    hide Inv, Timed, Saved, Phases, Renamed, Consistent, Renaming, Refused;
    var f;
    ghost var news, trieds, ids;
    f, news, trieds, ids := Serialize(m, order);
    ghost var s := m.St();
    loaded := new AddrManImpl(m.env, 1);
    ghost var blank := loaded.St();
    ghost var g;
    threw, g := Unserialize(loaded, f);
    SavedLists(s, f, news, trieds, ids);
    SavedAccepted(s, f, news, trieds, ids);
    RoundTrip(s, f, news, trieds, ids, blank, g, loaded.St());
    names := Renaming(s, news, trieds);
  }
}
