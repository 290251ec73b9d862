/** Reading the address manager's file. Whatever the file holds, reading it either throws
    or leaves a manager that satisfies the whole invariant. */
module AddrManLoad {
  import opened Prelude
  import opened AddrManModel
  import opened AddrManSteps
  import opened AddrManMoves
  import opened AddrMan
  import opened AddrManCheck

  /** The part of an entry that is stored. */
  datatype DiskInfo = DiskInfo(addr: Service, nTime: int, nServices: bv64, source: NetAddr, lastSuccess: int, nAttempts: nat)

  /** The stored fields in file order; a bucket is the list of its entries' indexes. */
  datatype File = File(
    format: nat,
    compat: nat,
    key: Key,
    nNew: int,
    nTried: int,
    nUBuckets: bv32,
    newInfos: seq<DiskInfo>,
    triedInfos: seq<DiskInfo>,
    buckets: seq<seq<int>>,
    asmapChecksum: nat)

  const V1_DETERMINISTIC := 1
  const V2_ASMAP := 2
  const FILE_FORMAT := 4
  const INCOMPATIBILITY_BASE := 32
  const BUCKETS_MARK: bv32 := 0x4000_0000

  function Loaded(d: DiskInfo, inTried: bool, pos: nat): AddrInfo {
    AddrInfo(d.addr, d.nTime, d.nServices, 0, 0, d.source, d.lastSuccess, d.nAttempts, 0, inTried, pos)
  }

  function BucketCount(f: File): int {
    var x := if f.format >= V1_DETERMINISTIC then f.nUBuckets ^ BUCKETS_MARK else f.nUBuckets;
    if x < 0x8000_0000 then x as int else x as int - 0x1_0000_0000
  }

  // ---------- What holds while loading ----------

  ghost predicate NotStale(s: State) {
    forall a :: a in s.addr ==> var id := s.addr[a]; id in s.info && s.info[id].addr == a
  }

  /** Every entry's address is a key. */
  ghost predicate Keyed(s: State) {
    forall id :: id in s.info ==> s.info[id].addr in s.addr
  }

  /** Entries in a table have valid addresses. */
  ghost predicate ValidPlaced(s: State) {
    forall id :: id in s.info && (s.info[id].fInTried || s.info[id].nRefCount > 0) ==> s.at.IsValid(s.info[id].addr)
  }

  ghost predicate Bounded(s: State, n: nat) {
    forall id :: id in s.info ==> 0 <= id < n && s.info[id].nRefCount <= NEW_BUCKETS_PER_ADDRESS
  }

  ghost predicate Loading(s: State, n: nat, nNew: int, nTried: int) {
    && Shuffled(s) && NotStale(s) && TriedPlaced(s) && NewPlaced(s) && RefCounted(s) && ValidPlaced(s) && Bounded(s, n)
    && Tallies(Kinds(s, {}), nNew, nTried, s.counts)
  }

  /** Appends an entry with the next id. */
  function Appended(s: State, d: DiskInfo, id: nat, inTried: bool): State {
    s.(info := s.info[id := Loaded(d, inTried, |s.random|)],
       addr := s.addr[d.addr := id],
       random := s.random + [id],
       triedTable := if inTried then s.triedTable[s.at.TriedSlot(d.addr) := id] else s.triedTable,
       counts := Adjust(s.counts, s.at.Network(d.addr), One(!inTried), One(inTried)))
  }

  lemma {:induction false} AppendedIndexes(s: State, d: DiskInfo, id: nat, inTried: bool)
    requires Shuffled(s) && NotStale(s) && Bounded(s, id)
    ensures var t := Appended(s, d, id, inTried); Shuffled(t) && NotStale(t) && Bounded(t, id + 1)
  {
    hide Adjust, Placement.TriedSlot;
    assert id !in s.info;
    var t := Appended(s, d, id, inTried);
    assert forall j :: j in s.info ==> t.info[j] == s.info[j];
  }

  lemma {:induction false} AppendedTried(s: State, d: DiskInfo, id: nat, inTried: bool)
    requires TriedPlaced(s) && id !in s.info && (inTried ==> s.at.TriedSlot(d.addr) !in s.triedTable)
    ensures TriedPlaced(Appended(s, d, id, inTried))
  {
    hide Adjust, Placement.TriedSlot;
  }

  lemma {:induction false} AppendedNew(s: State, d: DiskInfo, id: nat, inTried: bool)
    requires NewPlaced(s) && ValidPlaced(s) && id !in s.info && (inTried ==> s.at.IsValid(d.addr))
    ensures var t := Appended(s, d, id, inTried); NewPlaced(t) && ValidPlaced(t)
  {
    hide Adjust, Placement.TriedSlot, Placement.NewSlot;
  }

  lemma {:induction false} AppendedRefs(s: State, d: DiskInfo, id: nat, inTried: bool)
    requires NewPlaced(s) && RefCounted(s) && id !in s.info
    ensures RefCounted(Appended(s, d, id, inTried))
  {
    hide Adjust, Placement.TriedSlot, Placement.NewSlot;
    assert BucketsOf(s.at, s.newTable, d.addr, id) == {};
  }

  lemma {:induction false} AppendedKeeps(s: State, d: DiskInfo, id: nat, inTried: bool, nNew: int, nTried: int)
    requires Loading(s, id, nNew, nTried)
    requires inTried ==> s.at.TriedSlot(d.addr) !in s.triedTable && s.at.IsValid(d.addr)
    ensures Loading(Appended(s, d, id, inTried), id + 1, nNew + One(!inTried), nTried + One(inTried))
  {
    hide Shuffled, NotStale, TriedPlaced, NewPlaced, RefCounted, ValidPlaced, Bounded, Tallies, Placement.TriedSlot,
         KindOf;
    NextIsFree(s, id);
    AppendedIndexes(s, d, id, inTried);
    AppendedTried(s, d, id, inTried);
    AppendedNew(s, d, id, inTried);
    AppendedRefs(s, d, id, inTried);
    AppendedKinds(s, d, id, inTried, nNew, nTried);
  }

  lemma NextIsFree(s: State, n: nat)
    requires Bounded(s, n)
    ensures n !in s.info
  {
  }

  lemma {:induction false} AppendedKinds(s: State, d: DiskInfo, id: nat, inTried: bool, nNew: int, nTried: int)
    requires id !in s.info && Tallies(Kinds(s, {}), nNew, nTried, s.counts)
    ensures var t := Appended(s, d, id, inTried); Tallies(Kinds(t, {}), nNew + One(!inTried), nTried + One(inTried), t.counts)
  {
    hide Tallies, Adjust, Placement.TriedSlot;
    var t := Appended(s, d, id, inTried);
    var kind := KindOf(s.at, t.info[id]);
    assert Kinds(t, {}) == Kinds(s, {})[id := kind];
    TallyOne(Kinds(s, {}), id, kind, nNew, nTried, s.counts);
  }

  /** What loading never touches. */
  ghost predicate Untouched(s: State, t: State) {
    && t.at == s.at && t.idCount == s.idCount && t.nNew == s.nNew && t.nTried == s.nTried
    && t.lastGood == s.lastGood && t.collisions == s.collisions
  }

  method AppendEntry(m: AddrManImpl, d: DiskInfo, id: nat)
    requires m.Shaped()
    modifies m
    ensures m.St() == Appended(old(m.St()), d, id, false)
  {
    m.mapInfo := m.mapInfo[id := Loaded(d, false, |m.vRandom|)];
    m.mapAddr := m.mapAddr[d.addr := id];
    m.vRandom := m.vRandom + [id];
    m.networkCounts := Adjust(m.networkCounts, m.At().Network(d.addr), 1, 0);
  }

  // ---------- Entries of the new table ----------

  ghost predicate NewLoaded(s: State, infos: seq<DiskInfo>, n: nat) {
    && n <= |infos| && s.newTable == map[] && s.triedTable == map[] && |s.random| == n && Keyed(s)
    && forall j: int :: (j in s.info <==> 0 <= j < n) && (0 <= j < n ==> s.info[j] == Loaded(infos[j], false, j))
  }

  method LoadNew(m: AddrManImpl, infos: seq<DiskInfo>, count: nat)
    requires m.Shaped() && count <= |infos| && Loading(m.St(), 0, 0, 0) && NewLoaded(m.St(), infos, 0)
    modifies m
    ensures Loading(m.St(), count, count, 0) && NewLoaded(m.St(), infos, count) && Untouched(old(m.St()), m.St())
  {
    hide Loading;
    for n := 0 to count
      invariant Loading(m.St(), n, n, 0) && NewLoaded(m.St(), infos, n) && Untouched(old(m.St()), m.St())
    {
      AppendedKeeps(m.St(), infos[n], n, false, n, 0);
      AppendEntry(m, infos[n], n);
    }
  }

  // ---------- Entries of the tried table ----------

  ghost predicate TriedLoaded(s: State, was: State, base: nat, infos: seq<DiskInfo>, n: nat) {
    && n <= |infos| && s.newTable == was.newTable && |s.random| == base + n
    && (forall j: int :: j in s.info <==> j in was.info || base <= j < base + n)
    && (forall j: int :: j in was.info ==> s.info[j] == was.info[j])
    && (forall j: int :: base <= j < base + n ==> s.info[j] == Loaded(infos[j - base], true, j))
  }

  /** All addresses are valid and belong to different tried slots. */
  ghost predicate Separate(at: Placement, infos: seq<DiskInfo>, n: nat) {
    && n <= |infos|
    && (forall j :: 0 <= j < n ==> at.IsValid(infos[j].addr))
    && (forall i, j :: 0 <= i < j < n ==> at.TriedSlot(infos[i].addr) != at.TriedSlot(infos[j].addr))
  }

  lemma {:induction false} SeparateSlot(s: State, was: State, base: nat, infos: seq<DiskInfo>, n: nat)
    requires Separate(s.at, infos, n + 1) && TriedPlaced(s) && TriedLoaded(s, was, base, infos, n)
    requires forall id :: id in was.info ==> !was.info[id].fInTried
    ensures s.at.TriedSlot(infos[n].addr) !in s.triedTable
  {
    hide Placement.TriedSlot;
    var k := s.at.TriedSlot(infos[n].addr);
    if k in s.triedTable {
      var id := s.triedTable[k];
    }
  }

  lemma {:induction false} TriedLoadedOne(s: State, was: State, base: nat, infos: seq<DiskInfo>, n: nat)
    requires TriedLoaded(s, was, base, infos, n) && n < |infos| && base + n !in s.info
    ensures TriedLoaded(Appended(s, infos[n], base + n, true), was, base, infos, n + 1)
  {
    hide Adjust, Placement.TriedSlot;
  }

  method AppendTried(m: AddrManImpl, d: DiskInfo, b: nat, p: nat)
    requires m.Shaped() && b < TRIED_BUCKETS && p < BUCKET_SIZE && Slot(b, p) == m.At().TriedSlot(d.addr)
    modifies m, m.vvTried
    ensures m.St() == Appended(old(m.St()), d, old(m.nIdCount), true).(idCount := old(m.nIdCount) + 1)
  {
    hide Adjust, Placement.TriedSlot;
    var id := m.nIdCount;
    m.mapInfo := m.mapInfo[id := Loaded(d, true, |m.vRandom|)];
    m.vRandom := m.vRandom + [id];
    m.mapAddr := m.mapAddr[d.addr := id];
    m.WriteTried(b, p, id);
    m.nIdCount := m.nIdCount + 1;
    m.networkCounts := Adjust(m.networkCounts, m.At().Network(d.addr), 0, 1);
  }

  /** The counters read from the file and the next id are not tied to the tables. */
  lemma {:induction false} LoadingCounters(s: State, t: State, n: nat, nNew: int, nTried: int)
    requires Loading(s, n, nNew, nTried) && t == s.(idCount := t.idCount, nNew := t.nNew, nTried := t.nTried)
    ensures Loading(t, n, nNew, nTried)
  {
    hide Shuffled, TriedPlaced, NewPlaced, RefCounted, Tallies;
    SameTablesKeep(s, t);
    KindsSame(s, t, {});
  }

  ghost predicate TriedSoFar(s: State, was: State, base: nat, infos: seq<DiskInfo>, n: nat, nLost: nat) {
    && Loading(s, s.idCount, base, s.idCount - base) && s.idCount - base == n - nLost && s.idCount >= base
    && Untouched(was, s.(idCount := was.idCount)) && s.newTable == was.newTable
    && (forall j :: j in was.info ==> j in s.info && s.info[j] == was.info[j]) && (Keyed(was) ==> Keyed(s))
    && (Separate(s.at, infos, n) ==> nLost == 0 && TriedLoaded(s, was, base, infos, n))
  }

  lemma {:induction false} TriedTaken(s: State, was: State, base: nat, infos: seq<DiskInfo>, n: nat, nLost: nat)
    requires TriedSoFar(s, was, base, infos, n, nLost) && n < |infos|
    requires s.at.IsValid(infos[n].addr) && s.at.TriedSlot(infos[n].addr) !in s.triedTable
    ensures TriedSoFar(Appended(s, infos[n], s.idCount, true).(idCount := s.idCount + 1), was, base, infos, n + 1, nLost)
  {
    hide Loading, Adjust, Placement.TriedSlot, TriedLoaded;
    LoadingNext(s, s.idCount, base, s.idCount - base);
    AppendedKeeps(s, infos[n], s.idCount, true, base, s.idCount - base);
    var t := Appended(s, infos[n], s.idCount, true);
    var u := t.(idCount := s.idCount + 1);
    LoadingCounters(t, u, s.idCount + 1, base, s.idCount - base + 1);
    if Separate(s.at, infos, n + 1) {
      assert Separate(s.at, infos, n);
      TriedLoadedOne(s, was, base, infos, n);
      TriedLoadedCounter(t, u, was, base, infos, n + 1);
    }
  }

  lemma TriedLoadedCounter(t: State, u: State, was: State, base: nat, infos: seq<DiskInfo>, n: nat)
    requires TriedLoaded(t, was, base, infos, n) && u == t.(idCount := u.idCount)
    ensures TriedLoaded(u, was, base, infos, n)
  {
  }

  lemma LoadingNext(s: State, n: nat, nNew: int, nTried: int)
    requires Loading(s, n, nNew, nTried)
    ensures n !in s.info && TriedPlaced(s)
  {
    hide Shuffled, NotStale, NewPlaced, RefCounted, ValidPlaced, Tallies, TriedPlaced;
  }

  /** A lost entry means the stored ones were not separate. */
  lemma {:induction false} TriedLost(s: State, was: State, base: nat, infos: seq<DiskInfo>, n: nat, nLost: nat)
    requires TriedSoFar(s, was, base, infos, n, nLost) && n < |infos|
    requires !s.at.IsValid(infos[n].addr) || s.at.TriedSlot(infos[n].addr) in s.triedTable
    requires forall id :: id in was.info ==> !was.info[id].fInTried
    ensures TriedSoFar(s, was, base, infos, n + 1, nLost + 1)
  {
    hide Loading, Placement.TriedSlot, TriedLoaded;
    if Separate(s.at, infos, n + 1) {
      assert Separate(s.at, infos, n);
      LoadingNext(s, s.idCount, base, s.idCount - base);
      SeparateSlot(s, was, base, infos, n);
    }
  }

  method LoadTried(m: AddrManImpl, infos: seq<DiskInfo>, count: nat, ghost base: nat) returns (nLost: nat)
    requires m.Shaped() && count <= |infos| && m.nIdCount == base && Loading(m.St(), base, base, 0)
    requires |m.vRandom| == base
    requires forall id :: id in m.mapInfo ==> !m.mapInfo[id].fInTried
    modifies m, m.vvTried
    ensures TriedSoFar(m.St(), old(m.St()), base, infos, count, nLost)
  {
    hide Loading, TriedSoFar, Appended, Placement.TriedBucket, Placement.Position;
    ghost var was := m.St();
    nLost := 0;
    TriedStarts(was, base, infos);
    for n := 0 to count
      invariant TriedSoFar(m.St(), was, base, infos, n, nLost)
    {
      var info := infos[n];
      var b := m.At().TriedBucket(info.addr);
      var p := m.At().Position(false, b, info.addr);
      if m.At().IsValid(info.addr) && m.vvTried[b, p] == -1 {
        TriedTaken(m.St(), was, base, infos, n, nLost);
        AppendTried(m, info, b, p);
      } else {
        TriedLost(m.St(), was, base, infos, n, nLost);
        nLost := nLost + 1;
      }
    }
  }

  lemma {:induction false} TriedStarts(was: State, base: nat, infos: seq<DiskInfo>)
    requires was.idCount == base && Loading(was, base, base, 0) && |was.random| == base
    ensures TriedSoFar(was, was, base, infos, 0, 0)
  {
    hide Loading;
    assert Loading(was, base, base, 0);
    LoadingBounded(was, base, base, 0);
  }

  lemma LoadingBounded(s: State, n: nat, nNew: int, nTried: int)
    requires Loading(s, n, nNew, nTried)
    ensures Bounded(s, n)
  {
    hide Shuffled, NotStale, NewPlaced, RefCounted, ValidPlaced, Tallies, TriedPlaced, Bounded;
  }

  // ---------- The buckets ----------

  datatype Entry = Entry(bucket: nat, index: int)

  function RowEntries(b: nat, row: seq<int>, nNew: int): (r: seq<Entry>)
    ensures forall e :: e in r ==> e.bucket == b && 0 <= e.index < nNew
  {
    if row == [] then [] else
    var x := row[|row| - 1];
    RowEntries(b, row[..|row| - 1], nNew) + if 0 <= x < nNew then [Entry(b, x)] else []
  }

  function Entries(buckets: seq<seq<int>>, n: nat, nNew: int): (r: seq<Entry>)
    requires n <= |buckets|
    ensures forall e :: e in r ==> e.bucket < n && 0 <= e.index < nNew
  {
    if n == 0 then [] else Entries(buckets, n - 1, nNew) + RowEntries(n - 1, buckets[n - 1], nNew)
  }

  method ReadBuckets(buckets: seq<seq<int>>, count: nat, nNew: int) returns (entries: seq<Entry>)
    requires count <= |buckets|
    ensures entries == Entries(buckets, count, nNew)
  {
    entries := [];
    for b := 0 to count
      invariant entries == Entries(buckets, b, nNew)
    {
      var row := buckets[b];
      ghost var before := entries;
      for i := 0 to |row|
        invariant entries == before + RowEntries(b, row[..i], nNew)
      {
        assert row[..i + 1][..i] == row[..i];
        if 0 <= row[i] < nNew {
          entries := entries + [Entry(b, row[i])];
        }
      }
      assert row[..|row|] == row;
    }
  }

  /** Gives an entry back its slot, or one in its home bucket when that is not possible. */
  function RestoredEntry(s: State, e: Entry, restore: bool): State
    requires e.index in s.info
  {
    var i := s.info[e.index];
    if !s.at.IsValid(i.addr) || i.nRefCount >= NEW_BUCKETS_PER_ADDRESS then s
    else if restore && s.at.NewSlot(i.addr, e.bucket) !in s.newTable then ReferencedAt(s, e.index, e.bucket)
    else
      var home := s.at.NewBucket(i.addr, i.source);
      if s.at.NewSlot(i.addr, home) !in s.newTable then ReferencedAt(s, e.index, home) else s
  }

  /** Restoring keeps what holds while loading, and the set of entries. */
  ghost predicate Restorable(s: State, was: State, n: nat, nNew: int, nTried: int) {
    && Loading(s, n, nNew, nTried) && Untouched(was, s) && s.triedTable == was.triedTable && s.random == was.random && s.addr == was.addr
    && (forall j :: j in s.info <==> j in was.info)
    && (forall j :: j in s.info ==> s.info[j] == was.info[j].(nRefCount := s.info[j].nRefCount))
  }

  lemma {:induction false} ReferencedLoading(s: State, id: int, b: nat, n: nat, nNew: int, nTried: int)
    requires Loading(s, n, nNew, nTried) && id in s.info && !s.info[id].fInTried && b < NEW_BUCKETS
    requires s.at.IsValid(s.info[id].addr) && s.info[id].nRefCount < NEW_BUCKETS_PER_ADDRESS
    requires s.at.NewSlot(s.info[id].addr, b) !in s.newTable
    ensures Loading(ReferencedAt(s, id, b), n, nNew, nTried)
  {
    hide TriedPlaced, NewPlaced, RefCounted, Tallies, Placement.NewSlot, Shuffled, NotStale, ValidPlaced, Bounded;
    var t := ReferencedAt(s, id, b);
    ReferencedAtTables(s, id, b);
    ReferencedIndexes(s, t, id);
    KindsSame(s, t, {});
  }

  lemma {:induction false} ReferencedIndexes(s: State, t: State, id: int)
    requires Shuffled(s) && NotStale(s) && ValidPlaced(s) && id in s.info && s.at.IsValid(s.info[id].addr)
    requires t.info == s.info[id := s.info[id].(nRefCount := s.info[id].nRefCount + 1)]
    requires t.random == s.random && t.addr == s.addr && t.at == s.at
    ensures Shuffled(t) && NotStale(t) && ValidPlaced(t)
    ensures forall n: nat :: Bounded(s, n) && s.info[id].nRefCount < NEW_BUCKETS_PER_ADDRESS ==> Bounded(t, n)
  {
  }

  lemma {:induction false} RestoredEntryKeeps(s: State, was: State, e: Entry, restore: bool, n: nat, nNew: int,
                                              nTried: int)
    requires Restorable(s, was, n, nNew, nTried) && e.index in s.info && !s.info[e.index].fInTried
    requires restore ==> e.bucket < NEW_BUCKETS
    ensures Restorable(RestoredEntry(s, e, restore), was, n, nNew, nTried)
  {
    hide Loading, Placement.NewSlot, Placement.NewBucket;
    var i := s.info[e.index];
    if s.at.IsValid(i.addr) && i.nRefCount < NEW_BUCKETS_PER_ADDRESS {
      if restore && s.at.NewSlot(i.addr, e.bucket) !in s.newTable {
        ReferencedLoading(s, e.index, e.bucket, n, nNew, nTried);
      } else {
        var home := s.at.NewBucket(i.addr, i.source);
        if s.at.NewSlot(i.addr, home) !in s.newTable {
          ReferencedLoading(s, e.index, home, n, nNew, nTried);
        }
      }
    }
  }

  method RestoreEntry(m: AddrManImpl, e: Entry, restore: bool)
    requires m.Shaped() && e.index in m.mapInfo && e.index >= 0 && (restore ==> e.bucket < NEW_BUCKETS)
    modifies m, m.vvNew
    ensures m.St() == RestoredEntry(old(m.St()), e, restore)
  {
    hide ReferencedAt, Placement.NewBucket, Placement.Position;
    var info := m.mapInfo[e.index];
    if !m.At().IsValid(info.addr) || info.nRefCount >= NEW_BUCKETS_PER_ADDRESS {
      return;
    }
    if restore {
      var pos := m.At().Position(true, e.bucket, info.addr);
      if m.vvNew[e.bucket, pos] == -1 {
        m.Reference(e.index, e.bucket, pos);
        return;
      }
    }
    var bucket := m.At().NewBucket(info.addr, info.source);
    var pos := m.At().Position(true, bucket, info.addr);
    if m.vvNew[bucket, pos] == -1 {
      m.Reference(e.index, bucket, pos);
    }
  }

  /** The states passed while the listed entries are restored in order. */
  ghost predicate Restoring(states: seq<State>, entries: seq<Entry>, restore: bool) {
    |states| > 0 && |states| <= |entries| + 1
    && forall q :: 0 <= q < |states| - 1 ==>
         entries[q].index in states[q].info && states[q + 1] == RestoredEntry(states[q], entries[q], restore)
  }

  method RestoreBuckets(m: AddrManImpl, entries: seq<Entry>, restore: bool, ghost n: nat, ghost nNew: int,
                        ghost nTried: int)
    returns (ghost states: seq<State>)
    requires m.Shaped() && Loading(m.St(), n, nNew, nTried)
    requires forall e :: e in entries ==>
      0 <= e.index && e.index in m.mapInfo && !m.mapInfo[e.index].fInTried && (restore ==> e.bucket < NEW_BUCKETS)
    modifies m, m.vvNew
    ensures Restorable(m.St(), old(m.St()), n, nNew, nTried)
    ensures Restoring(states, entries, restore) && |states| == |entries| + 1 && states[0] == old(m.St())
    ensures states[|entries|] == m.St()
  {
    hide Loading, RestoredEntry;
    ghost var was := m.St();
    states := [was];
    for q := 0 to |entries|
      invariant Restorable(m.St(), was, n, nNew, nTried)
      invariant Restoring(states, entries, restore) && |states| == q + 1 && states[0] == was && states[q] == m.St()
    {
      ghost var s := m.St();
      assert entries[q] in entries;
      RestoredEntryKeeps(s, was, entries[q], restore, n, nNew, nTried);
      RestoreEntry(m, entries[q], restore);
      states := states + [m.St()];
    }
  }

  // ---------- Pruning ----------

  ghost predicate Alive(s: State, id: int)
    requires id in s.info
  {
    s.info[id].fInTried || s.info[id].nRefCount > 0
  }

  /** Of the entries in `seen` exactly the ones in a table are left; the others are untouched. */
  ghost predicate Pruned(s: State, t: State, seen: set<int>) {
    && (forall j :: j in t.info <==> j in s.info && (j in seen ==> Alive(s, j)))
    && (forall j :: j in t.info ==> SameBut(t.info[j], s.info[j]))
    && t.at == s.at && t.idCount == s.idCount && t.triedTable == s.triedTable && t.newTable == s.newTable
    && t.lastGood == s.lastGood && t.collisions == s.collisions && t.nTried == s.nTried
    && ((forall j :: j in s.info && j in seen ==> Alive(s, j)) ==> t.addr == s.addr && t.nNew == s.nNew)
  }

  lemma {:induction false} DroppedLoading(s: State, id: int, n: nat)
    requires Loading(s, n, s.nNew, s.nTried) && id in s.info && !s.info[id].fInTried && s.info[id].nRefCount == 0
    requires s.info[id].nRandomPos == |s.random| - 1
    ensures |s.random| > 0 && Loading(Dropped(s, id), n, s.nNew - 1, s.nTried) && Dropped(s, id).nNew == s.nNew - 1
  {
    hide Tallies, Adjust, Shuffled, NotStale, TriedPlaced, NewPlaced, RefCounted, ValidPlaced, Bounded;
    DroppedWeak(s, id, n);
    DroppedTables(s, id);
    var t, kind := Dropped(s, id), New(s.at.Network(s.info[id].addr));
    assert Kinds(s, {}) == Kinds(t, {})[id := kind];
    Uncounts(s, {}, t, {}, id, kind);
  }

  lemma {:induction false} DroppedWeak(s: State, id: int, n: nat)
    requires Shuffled(s) && NotStale(s) && ValidPlaced(s) && Bounded(s, n)
    requires id in s.info && s.info[id].nRandomPos == |s.random| - 1
    ensures |s.random| > 0
    ensures var t := Dropped(s, id); Shuffled(t) && NotStale(t) && ValidPlaced(t) && Bounded(t, n)
  {
    hide Adjust;
  }

  lemma {:induction false} ReshuffledLoading(s: State, t: State, n: nat)
    requires Loading(s, n, s.nNew, s.nTried) && Reshuffled(s, t) && Shuffled(t)
    ensures Loading(t, n, t.nNew, t.nTried)
  {
    hide Tallies, Shuffled, TriedPlaced, NewPlaced, RefCounted;
    ReshuffledTables(s, t);
    ReshuffledEntries(s, t, {}, {});
    ReshuffledWeak(s, t, n);
  }

  lemma {:induction false} ReshuffledWeak(s: State, t: State, n: nat)
    requires Reshuffled(s, t)
    ensures NotStale(s) ==> NotStale(t)
    ensures ValidPlaced(s) ==> ValidPlaced(t)
    ensures Bounded(s, n) ==> Bounded(t, n)
  {
  }

  lemma {:induction false} DeletedLoading(s: State, id: int, n: nat)
    requires Loading(s, n, s.nNew, s.nTried) && id in s.info && !s.info[id].fInTried && s.info[id].nRefCount == 0
    requires Shuffled(s)
    ensures var t := Deleted(s, id);
      && Loading(t, n, t.nNew, t.nTried) && Without(s, t, id) && t.nTried == s.nTried
  {
    hide Loading, Shuffled, Swap, Reshuffled, Without, Adjust;
    if s.info[id].nRandomPos == |s.random| - 1 {
      DroppedLoading(s, id, n);
      DroppedEffect(s, s, id);
    } else {
      SwappedLast(s, id);
      var t := Swap(s, s.info[id].nRandomPos, |s.random| - 1);
      ReshuffledLoading(s, t, n);
      SameTotals(s, t);
      DroppedLoading(t, id, n);
      DroppedEffect(s, t, id);
    }
  }

  lemma SameTotals(s: State, t: State)
    requires Reshuffled(s, t)
    ensures t.nTried == s.nTried
  {
  }

  lemma {:induction false} PrunedOne(s: State, t: State, u: State, seen: set<int>, id: int)
    requires Pruned(s, t, seen) && id in t.info && id !in seen
    requires if t.info[id].fInTried || t.info[id].nRefCount > 0 then u == t else Without(t, u, id) && u.nTried == t.nTried
    ensures Pruned(s, u, seen + {id})
  {
  }

  method Prune(m: AddrManImpl, ghost n: nat)
    requires m.Shaped() && Loading(m.St(), n, m.nNew, m.nTried)
    modifies m
    ensures Loading(m.St(), n, m.nNew, m.nTried) && Pruned(old(m.St()), m.St(), old(m.mapInfo.Keys))
  {
    hide Loading, Pruned, Deleted, Without;
    ghost var s := m.St();
    var todo := m.mapInfo.Keys;
    ghost var seen: set<int> := {};
    PrunedNone(s);
    while todo != {}
      invariant Loading(m.St(), n, m.nNew, m.nTried) && Pruned(s, m.St(), seen)
      invariant seen + todo == s.info.Keys && seen !! todo
      decreases todo
    {
      Inhabited(todo);
      var id :| id in todo;
      ghost var t := m.St();
      PrunedStill(s, t, seen, id);
      NonNegative(t, n, id);
      if !m.mapInfo[id].fInTried && m.mapInfo[id].nRefCount == 0 {
        DeletedLoading(t, id, n);
        m.Delete(id);
      }
      PrunedOne(s, t, m.St(), seen, id);
      todo, seen := todo - {id}, seen + {id};
    }
    assert seen == s.info.Keys;
  }

  lemma PrunedNone(s: State)
    ensures Pruned(s, s, {})
  {
  }

  lemma PrunedStill(s: State, t: State, seen: set<int>, id: int)
    requires Pruned(s, t, seen) && id in s.info && id !in seen
    ensures id in t.info
  {
  }

  lemma NonNegative(s: State, n: nat, id: int)
    requires Loading(s, n, s.nNew, s.nTried) && id in s.info
    ensures s.info[id].nRefCount >= 0 && Shuffled(s)
  {
    hide Tallies, Shuffled, NotStale, TriedPlaced, NewPlaced, ValidPlaced, Bounded, BucketsOf;
  }

  // ---------- Reading a whole file ----------

  lemma {:induction false} EmptyLoading(s: State, infos: seq<DiskInfo>)
    requires Empty(s)
    ensures Loading(s, 0, 0, 0) && NewLoaded(s, infos, 0)
  {
    assert Kinds(s, {}) == map[];
  }

  /** The file is of an unknown version, its numbers are out of range, or it is cut short. */
  predicate Refused(f: File) {
    || f.compat < INCOMPATIBILITY_BASE || f.compat - INCOMPATIBILITY_BASE > FILE_FORMAT
    || !(0 <= f.nNew <= NEW_BUCKETS * BUCKET_SIZE) || !(0 <= f.nTried <= TRIED_BUCKETS * BUCKET_SIZE)
    || |f.newInfos| < f.nNew || |f.triedInfos| < f.nTried || |f.buckets| < BucketCount(f)
  }

  predicate SameBucketing(f: File, env: Env) {
    BucketCount(f) == NEW_BUCKETS && env.asmapChecksum == if f.format >= V2_ASMAP then f.asmapChecksum else 0
  }

  function FileEntries(f: File): seq<Entry>
    requires !Refused(f)
  {
    Entries(f.buckets, Max(0, BucketCount(f)), f.nNew)
  }

  /** The states between the phases of reading. */
  datatype Stages = Stages(new_: State, tried: State, nLost: nat, restoring: seq<State>)

  /** How the phases lead from a blank manager to `t`. */
  ghost predicate Phases(f: File, blank: State, g: Stages, t: State)
    requires !Refused(f)
  {
    && g.new_.at == Placement(blank.at.env, f.key) && g.new_.idCount == f.nNew && g.new_.collisions == {} && g.new_.nNew == f.nNew
    && NewLoaded(g.new_, f.newInfos, f.nNew)
    && TriedSoFar(g.tried, g.new_, f.nNew, f.triedInfos, f.nTried, g.nLost)
    && |g.restoring| == |FileEntries(f)| + 1 && Restoring(g.restoring, FileEntries(f), SameBucketing(f, blank.at.env))
    && g.restoring[0] == g.tried.(nTried := f.nTried - g.nLost)
    && Restorable(g.restoring[|FileEntries(f)|], g.restoring[0], g.tried.idCount, f.nNew, f.nTried - g.nLost)
    && Pruned(g.restoring[|FileEntries(f)|], t, g.restoring[|FileEntries(f)|].info.Keys)
    && Loading(t, t.idCount, t.nNew, t.nTried)
  }

  /** Reading leaves nothing to check but names, times and the key. */
  lemma {:induction false} LoadedUnchecked(t: State)
    requires Loading(t, t.idCount, t.nNew, t.nTried) && Referenced(t, {}) && t.collisions == {}
    ensures Unchecked(t) && Pending(t)
  {
    hide Tallies, Shuffled, TriedPlaced, NewPlaced, RefCounted, Placement.TriedSlot, CountsOk;
    assert Counted(t, {});
    InvCounts(t);
  }

  lemma {:induction false} PrunedAll(s: State, t: State)
    requires Pruned(s, t, s.info.Keys)
    ensures Referenced(t, {}) && t.collisions == s.collisions && t.idCount == s.idCount
  {
    forall id | id in t.info ensures t.info[id].fInTried || t.info[id].nRefCount > 0 { assert Alive(s, id); }
  }

  /** First phase: both lists of entries. */
  method LoadEntries(m: AddrManImpl, f: File) returns (ghost new_: State, nLost: nat)
    requires m.Shaped() && Empty(m.St()) && !Refused(f)
    modifies m, m.vvTried
    ensures new_.at == Placement(m.env, f.key) && new_.idCount == f.nNew && new_.collisions == {} && new_.nNew == f.nNew
    ensures NewLoaded(new_, f.newInfos, f.nNew) && TriedSoFar(m.St(), new_, f.nNew, f.triedInfos, f.nTried, nLost)
    ensures m.nTried == f.nTried
  {
    hide Loading, BucketCount;
    m.nKey := f.key;
    m.nNew := f.nNew;
    m.nTried := f.nTried;
    EmptyLoading(m.St(), f.newInfos);
    LoadNew(m, f.newInfos, f.nNew);
    ghost var s := m.St();
    m.nIdCount := f.nNew;
    new_ := m.St();
    LoadingCounters(s, new_, f.nNew, f.nNew, 0);
    nLost := LoadTried(m, f.triedInfos, f.nTried, f.nNew);
  }

  method Unserialize(m: AddrManImpl, f: File) returns (threw: bool, ghost g: Stages)
    requires m.Shaped() && Empty(m.St())
    modifies m, m.vvNew, m.vvTried
    ensures Refused(f) ==> threw
    ensures !Refused(f) ==> Phases(f, old(m.St()), g, m.St()) && (threw <==> !Consistent(m.St()))
    ensures !threw ==> Inv(m.St()) && Timed(m.St()) && Pending(m.St())
  {
    hide Loading, TriedSoFar, Restoring, Restorable, Pruned, Consistent, Unchecked, Inv, Timed, Pending, Referenced,
         Entries, BucketCount;
    ghost var blank := m.St();
    g := Stages(blank, blank, 0, []);
    if Refused(f) {
      return true, g;
    }
    ghost var s1;
    var nLost;
    s1, nLost := LoadEntries(m, f);
    ghost var s2 := m.St();
    m.nTried := m.nTried - nLost;
    var count := Max(0, BucketCount(f));
    var entries := ReadBuckets(f.buckets, count, f.nNew);
    LoadedReady(f, s1, s2, m.St(), nLost, entries);
    ghost var states := RestoreBuckets(m, entries, SameBucketing(f, m.env), m.nIdCount, f.nNew, f.nTried - nLost);
    ghost var s4 := m.St();
    RestoredReady(s4, states[0], s2.idCount, f.nNew, f.nTried - nLost);
    Prune(m, s2.idCount);
    g := Stages(s1, s2, nLost, states);
    PrunedAll(s4, m.St());
    LoadedUnchecked(m.St());
    InvIffConsistent(m.St());
    var code := CheckAddrman(m);
    threw := code != 0;
  }

  lemma {:induction false} LoadedReady(f: File, s1: State, s2: State, s3: State, nLost: nat, entries: seq<Entry>)
    requires !Refused(f) && NewLoaded(s1, f.newInfos, f.nNew)
    requires TriedSoFar(s2, s1, f.nNew, f.triedInfos, f.nTried, nLost)
    requires s3 == s2.(nTried := f.nTried - nLost) && entries == FileEntries(f)
    ensures Loading(s3, s2.idCount, f.nNew, f.nTried - nLost) && s3.nNew == s1.nNew && s3.collisions == s1.collisions
    ensures s3.at == s1.at
    ensures forall e :: e in entries ==>
      0 <= e.index && e.index in s3.info && !s3.info[e.index].fInTried && (SameBucketing(f, s3.at.env) ==> e.bucket < NEW_BUCKETS)
  {
    hide Loading, Entries, BucketCount;
    LoadingCounters(s2, s3, s2.idCount, f.nNew, f.nTried - nLost);
  }

  lemma {:induction false} RestoredReady(s4: State, s3: State, n: nat, nNew: int, nTried: int)
    requires Restorable(s4, s3, n, nNew, nTried) && s3.nNew == nNew && s3.nTried == nTried
    ensures Loading(s4, n, s4.nNew, s4.nTried) && s4.idCount == s3.idCount && s4.collisions == s3.collisions
  {
    hide Loading;
  }
}
