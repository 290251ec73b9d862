/** Writing the address manager's file, and reading it back: nothing is lost. */
module AddrManSave {
  import opened AddrManModel
  import opened AddrManMoves
  import opened AddrMan
  import opened AddrManCheck
  import opened AddrManLoad

  function DiskOf(i: AddrInfo): DiskInfo {
    DiskInfo(i.addr, i.nTime, i.nServices, i.source, i.lastSuccess, i.nAttempts)
  }

  // ---------- The order in which entries are written ----------

  /** The members of `ids` in the order of `order`. */
  function Pick(order: seq<int>, ids: set<int>): seq<int> {
    if order == [] then [] else
    var last := order[|order| - 1];
    Pick(order[..|order| - 1], ids) + if last in ids then [last] else []
  }

  lemma {:induction false} PickMembers(order: seq<int>, ids: set<int>, id: int)
    ensures id in Pick(order, ids) <==> id in order && id in ids
  {
    if order != [] {
      var rest, last := order[..|order| - 1], order[|order| - 1];
      PickMembers(rest, ids, id);
      assert order == rest + [last];
    }
  }

  lemma {:induction false} PickDistinct(order: seq<int>, ids: set<int>)
    requires Distinct(order)
    ensures Distinct(Pick(order, ids))
  {
    if order != [] {
      var rest, last := order[..|order| - 1], order[|order| - 1];
      PickDistinct(rest, ids);
      PickMembers(rest, ids, last);
    }
  }

  /** Every known id, once. */
  ghost predicate Enumerates(order: seq<int>, s: State) {
    Distinct(order) && forall id :: id in order <==> id in s.info
  }

  ghost function NewOnes(s: State): set<int> { set id | id in s.info && !s.info[id].fInTried }

  ghost function TriedOnes(s: State): set<int> { set id | id in s.info && s.info[id].fInTried }

  lemma {:induction false} PickSize(order: seq<int>, s: State, ids: set<int>)
    requires Enumerates(order, s) && ids <= s.info.Keys
    ensures |Pick(order, ids)| == |ids|
  {
    PickDistinct(order, ids);
    DistinctSize(Pick(order, ids));
    forall id: int ensures id in Pick(order, ids) <==> id in ids {
      PickMembers(order, ids, id);
      assert id in ids ==> id in s.info.Keys;
    }
    assert (set id | id in Pick(order, ids)) == ids;
  }

  lemma {:induction false} PickPrefix(order: seq<int>, ids: set<int>, n: nat)
    requires n <= |order|
    ensures Pick(order[..n], ids) <= Pick(order, ids)
    ensures n < |order| && order[n] in ids ==>
      |Pick(order[..n], ids)| < |Pick(order, ids)| && Pick(order, ids)[|Pick(order[..n], ids)|] == order[n]
  {
    if n == |order| {
      assert order[..n] == order;
    } else {
      var rest := order[..|order| - 1];
      PickPrefix(rest, ids, n);
      assert rest[..n] == order[..n];
      assert n < |rest| ==> rest[n] == order[n];
    }
  }

  lemma {:induction false} SameOnes(s: State)
    ensures NewOnes(s) == NewIds(Kinds(s, {})) && TriedOnes(s) == TriedIds(Kinds(s, {}))
  {
    forall id: int
      ensures id in NewOnes(s) <==> id in NewIds(Kinds(s, {}))
      ensures id in TriedOnes(s) <==> id in TriedIds(Kinds(s, {}))
    {
    }
  }

  lemma {:induction false} Totals(s: State, order: seq<int>)
    requires Inv(s) && Enumerates(order, s)
    ensures |Pick(order, NewOnes(s))| == s.nNew && |Pick(order, TriedOnes(s))| == s.nTried
    ensures forall id :: id in s.info ==> (s.info[id].nRefCount != 0 <==> id in NewOnes(s))
  {
    hide Shuffled, Addressed, TriedPlaced, Sensible, Pick;
    PickSize(order, s, NewOnes(s));
    PickSize(order, s, TriedOnes(s));
    SameOnes(s);
    forall id | id in s.info ensures s.info[id].nRefCount != 0 <==> id in NewOnes(s) {
      if s.info[id].fInTried { TriedHasNoRefs(s, id); }
    }
  }

  // ---------- The slots in the order in which they are written ----------

  function RowSlots(t: Table, b: nat, i: nat): seq<Slot> {
    if i == 0 then [] else RowSlots(t, b, i - 1) + if Slot(b, i - 1) in t then [Slot(b, i - 1)] else []
  }

  function AllSlots(t: Table, n: nat): seq<Slot> {
    if n == 0 then [] else AllSlots(t, n - 1) + RowSlots(t, n - 1, BUCKET_SIZE)
  }

  lemma {:induction false} RowMembers(t: Table, b: nat, i: nat, k: Slot)
    ensures k in RowSlots(t, b, i) <==> k in t && k.bucket == b && k.pos < i
  {
    if i > 0 {
      RowMembers(t, b, i - 1, k);
      assert k == Slot(k.bucket, k.pos);
    }
  }

  lemma {:induction false} AllMembers(t: Table, n: nat, k: Slot)
    ensures k in AllSlots(t, n) <==> k in t && k.bucket < n && k.pos < BUCKET_SIZE
  {
    if n > 0 {
      AllMembers(t, n - 1, k);
      RowMembers(t, n - 1, BUCKET_SIZE, k);
    }
  }

  predicate DistinctSlots(s: seq<Slot>) {
    forall i, j :: 0 <= i < j < |s| ==> s[i] != s[j]
  }

  lemma {:induction false} RowDistinct(t: Table, b: nat, i: nat)
    ensures DistinctSlots(RowSlots(t, b, i))
  {
    if i > 0 {
      RowDistinct(t, b, i - 1);
      RowMembers(t, b, i - 1, Slot(b, i - 1));
    }
  }

  lemma {:induction false} AllDistinct(t: Table, n: nat)
    ensures DistinctSlots(AllSlots(t, n))
  {
    if n > 0 {
      AllDistinct(t, n - 1);
      RowDistinct(t, n - 1, BUCKET_SIZE);
      var old_, row := AllSlots(t, n - 1), RowSlots(t, n - 1, BUCKET_SIZE);
      forall i, j | 0 <= i < |old_| && 0 <= j < |row| ensures old_[i] != row[j] {
        AllMembers(t, n - 1, old_[i]);
        RowMembers(t, n - 1, BUCKET_SIZE, row[j]);
      }
    }
  }

  /** The index written for a slot. */
  function Index(t: Table, ids: map<int, int>, k: Slot): int {
    if k in t && t[k] in ids then ids[t[k]] else -1
  }

  function RowIndexes(t: Table, ids: map<int, int>, b: nat, i: nat): seq<int> {
    if i == 0 then [] else RowIndexes(t, ids, b, i - 1) + if Slot(b, i - 1) in t then [Index(t, ids, Slot(b, i - 1))] else []
  }

  lemma {:induction false} RowIndexed(t: Table, ids: map<int, int>, b: nat, i: nat)
    ensures |RowIndexes(t, ids, b, i)| == |RowSlots(t, b, i)|
    ensures forall q :: 0 <= q < |RowSlots(t, b, i)| ==> RowIndexes(t, ids, b, i)[q] == Index(t, ids, RowSlots(t, b, i)[q])
  {
    if i > 0 { RowIndexed(t, ids, b, i - 1); }
  }

  lemma {:induction false} RowReadBack(b: nat, row: seq<int>, nNew: int)
    requires forall q :: 0 <= q < |row| ==> 0 <= row[q] < nNew
    ensures |RowEntries(b, row, nNew)| == |row|
    ensures forall q :: 0 <= q < |row| ==> RowEntries(b, row, nNew)[q] == Entry(b, row[q])
  {
    if row != [] { RowReadBack(b, row[..|row| - 1], nNew); }
  }

  /** Entry by entry and slot by slot. */
  ghost predicate Lists(entries: seq<Entry>, slots: seq<Slot>, t: Table, ids: map<int, int>) {
    |entries| == |slots| && forall q :: 0 <= q < |slots| ==> entries[q] == Entry(slots[q].bucket, Index(t, ids, slots[q]))
  }

  lemma {:induction false} ListsConcat(a: seq<Entry>, b: seq<Entry>, s: seq<Slot>, u: seq<Slot>, t: Table,
                                       ids: map<int, int>)
    requires Lists(a, s, t, ids) && Lists(b, u, t, ids)
    ensures Lists(a + b, s + u, t, ids)
  {
    hide Index;
    forall q | 0 <= q < |s + u| ensures (a + b)[q] == Entry((s + u)[q].bucket, Index(t, ids, (s + u)[q])) {
      if q >= |s| { assert (a + b)[q] == b[q - |s|] && (s + u)[q] == u[q - |s|]; }
    }
  }

  lemma EntriesNext(buckets: seq<seq<int>>, n: nat, nNew: int)
    requires n < |buckets|
    ensures Entries(buckets, n + 1, nNew) == Entries(buckets, n, nNew) + RowEntries(n, buckets[n], nNew)
  {
  }

  lemma SlotsNext(t: Table, n: nat)
    ensures AllSlots(t, n + 1) == AllSlots(t, n) + RowSlots(t, n, BUCKET_SIZE)
  {
  }

  /** What is read from the buckets is what the slots held, slot by slot. */
  lemma {:induction false} EntriesReadBack(t: Table, ids: map<int, int>, buckets: seq<seq<int>>, n: nat, nNew: int)
    requires n <= |buckets| && forall b :: 0 <= b < n ==> buckets[b] == RowIndexes(t, ids, b, BUCKET_SIZE)
    requires forall k :: k in t ==> 0 <= Index(t, ids, k) < nNew
    ensures Lists(Entries(buckets, n, nNew), AllSlots(t, n), t, ids)
    decreases n
  {
    if n > 0 {
      EntriesReadBack(t, ids, buckets, n - 1, nNew);
      NextRow(t, ids, buckets, n - 1, nNew);
    }
  }

  lemma {:induction false} NextRow(t: Table, ids: map<int, int>, buckets: seq<seq<int>>, n: nat, nNew: int)
    requires n < |buckets| && buckets[n] == RowIndexes(t, ids, n, BUCKET_SIZE) && forall k :: k in t ==> 0 <= Index(t, ids, k) < nNew
    requires Lists(Entries(buckets, n, nNew), AllSlots(t, n), t, ids)
    ensures Lists(Entries(buckets, n + 1, nNew), AllSlots(t, n + 1), t, ids)
  {
    hide Entries, AllSlots, RowSlots, RowIndexes, RowEntries, Index, Lists;
    EntriesNext(buckets, n, nNew);
    SlotsNext(t, n);
    RowEntriesAre(t, ids, n, buckets[n], nNew);
    ListsConcat(Entries(buckets, n, nNew), RowEntries(n, buckets[n], nNew), AllSlots(t, n), RowSlots(t, n, BUCKET_SIZE), t, ids);
  }

  lemma {:induction false} RowEntriesAre(t: Table, ids: map<int, int>, b: nat, row: seq<int>, nNew: int)
    requires row == RowIndexes(t, ids, b, BUCKET_SIZE) && forall k :: k in t ==> 0 <= Index(t, ids, k) < nNew
    ensures Lists(RowEntries(b, row, nNew), RowSlots(t, b, BUCKET_SIZE), t, ids)
  {
    hide RowSlots, RowIndexes, RowEntries, Index;
    var slots := RowSlots(t, b, BUCKET_SIZE);
    RowIndexed(t, ids, b, BUCKET_SIZE);
    forall q | 0 <= q < |row| ensures 0 <= row[q] < nNew && slots[q].bucket == b {
      assert slots[q] in slots;
      RowMembers(t, b, BUCKET_SIZE, slots[q]);
    }
    RowReadBack(b, row, nNew);
  }

  // ---------- Writing ----------

  /** The file's lists are the untried and the tried entries, and its buckets the new table. */
  ghost predicate Saved(s: State, f: File, news: seq<int>, trieds: seq<int>, ids: map<int, int>) {
    && f.format == FILE_FORMAT && f.compat == INCOMPATIBILITY_BASE + FILE_FORMAT && f.key == s.at.key
    && f.nUBuckets == 0x400 ^ BUCKETS_MARK && f.asmapChecksum == s.at.env.asmapChecksum
    && Distinct(news) && (forall id :: id in news <==> id in NewOnes(s)) && f.nNew == |news| == |f.newInfos|
    && Distinct(trieds) && (forall id :: id in trieds <==> id in TriedOnes(s)) && f.nTried == |trieds| == |f.triedInfos|
    && (forall i :: 0 <= i < |news| ==>
        news[i] in ids && ids[news[i]] == i && news[i] in s.info && f.newInfos[i] == DiskOf(s.info[news[i]]))
    && (forall i :: 0 <= i < |trieds| ==> trieds[i] in s.info && f.triedInfos[i] == DiskOf(s.info[trieds[i]]))
    && |f.buckets| == NEW_BUCKETS && forall b :: 0 <= b < NEW_BUCKETS ==> f.buckets[b] == RowIndexes(s.newTable, ids, b, BUCKET_SIZE)
  }

  /** The untried entries, and the index each gets; the map also names the tried ones, with the index of
      the next untried entry. */
  method WriteNewInfos(m: AddrManImpl, order: seq<int>)
      returns (infos: seq<DiskInfo>, mapUnkIds: map<int, int>, ghost news: seq<int>)
    requires m.Shaped() && Inv(m.St()) && Enumerates(order, m.St())
    ensures news == Pick(order, NewOnes(m.St())) && |infos| == |news| == m.nNew
    ensures forall i :: 0 <= i < |news| ==>
      news[i] in mapUnkIds && mapUnkIds[news[i]] == i && news[i] in m.mapInfo && infos[i] == DiskOf(m.mapInfo[news[i]])
  {
    hide Structured, Pick, Referenced, NewOnes;
    ghost var s := m.St();
    Totals(s, order);
    infos, mapUnkIds := [], map[];
    news := Pick([], NewOnes(s));
    PickEmpty(NewOnes(s));
    for n := 0 to |order|
      invariant news == Pick(order[..n], NewOnes(s)) && |infos| == |news|
      invariant forall i :: 0 <= i < |news| ==>
        && news[i] in order[..n] && news[i] in mapUnkIds && mapUnkIds[news[i]] == i
        && news[i] in m.mapInfo && infos[i] == DiskOf(m.mapInfo[news[i]])
    {
      var id := order[n];
      assert id in m.mapInfo && id !in order[..n];
      PickPrefix(order, NewOnes(s), n);
      PickNext(order, NewOnes(s), n);
      mapUnkIds := mapUnkIds[id := |infos|];
      if m.mapInfo[id].nRefCount != 0 {
        assert |infos| != m.nNew;
        infos := infos + [DiskOf(m.mapInfo[id])];
        news := news + [id];
      }
    }
    assert order[..|order|] == order;
  }

  lemma PickEmpty(ids: set<int>)
    ensures Pick([], ids) == []
  {
  }

  lemma PickNext(order: seq<int>, ids: set<int>, n: nat)
    requires n < |order|
    ensures Pick(order[..n + 1], ids) == Pick(order[..n], ids) + if order[n] in ids then [order[n]] else []
  {
    assert order[..n + 1][..n] == order[..n];
  }

  method WriteTriedInfos(m: AddrManImpl, order: seq<int>) returns (infos: seq<DiskInfo>, ghost trieds: seq<int>)
    requires m.Shaped() && Inv(m.St()) && Enumerates(order, m.St())
    ensures trieds == Pick(order, TriedOnes(m.St())) && |infos| == |trieds| == m.nTried
    ensures forall i :: 0 <= i < |trieds| ==> trieds[i] in m.mapInfo && infos[i] == DiskOf(m.mapInfo[trieds[i]])
  {
    hide Structured, Pick, Referenced;
    ghost var s := m.St();
    Totals(s, order);
    infos, trieds := [], Pick([], TriedOnes(s));
    PickEmpty(TriedOnes(s));
    for n := 0 to |order|
      invariant trieds == Pick(order[..n], TriedOnes(s)) && |infos| == |trieds|
      invariant forall i :: 0 <= i < |trieds| ==> trieds[i] in m.mapInfo && infos[i] == DiskOf(m.mapInfo[trieds[i]])
    {
      var id := order[n];
      assert id in m.mapInfo;
      PickPrefix(order, TriedOnes(s), n);
      PickNext(order, TriedOnes(s), n);
      if m.mapInfo[id].fInTried {
        assert |infos| != m.nTried;
        infos := infos + [DiskOf(m.mapInfo[id])];
        trieds := trieds + [id];
      }
    }
    assert order[..|order|] == order;
  }

  method WriteBuckets(m: AddrManImpl, mapUnkIds: map<int, int>) returns (buckets: seq<seq<int>>)
    requires m.Shaped()
    ensures |buckets| == NEW_BUCKETS
    ensures forall b :: 0 <= b < NEW_BUCKETS ==> buckets[b] == RowIndexes(m.St().newTable, mapUnkIds, b, BUCKET_SIZE)
  {
    ghost var t := m.St().newTable;
    InGrid(m.vvNew);
    buckets := [];
    for b := 0 to NEW_BUCKETS
      invariant |buckets| == b && forall c :: 0 <= c < b ==> buckets[c] == RowIndexes(t, mapUnkIds, c, BUCKET_SIZE)
    {
      var row := [];
      for i := 0 to BUCKET_SIZE
        invariant row == RowIndexes(t, mapUnkIds, b, i)
      {
        if m.vvNew[b, i] != -1 {
          row := row + [if m.vvNew[b, i] in mapUnkIds then mapUnkIds[m.vvNew[b, i]] else -1];
        }
      }
      buckets := buckets + [row];
    }
  }

  method Serialize(m: AddrManImpl, order: seq<int>)
      returns (f: File, ghost news: seq<int>, ghost trieds: seq<int>, ghost ids: map<int, int>)
    requires m.Shaped() && Inv(m.St()) && Enumerates(order, m.St())
    ensures Saved(m.St(), f, news, trieds, ids)
  {
    hide Structured, Pick, Referenced, RowIndexes, NewOnes, TriedOnes;
    ghost var s := m.St();
    var newInfos, mapUnkIds, triedInfos;
    newInfos, mapUnkIds, news := WriteNewInfos(m, order);
    triedInfos, trieds := WriteTriedInfos(m, order);
    var buckets := WriteBuckets(m, mapUnkIds);
    f := File(FILE_FORMAT, INCOMPATIBILITY_BASE + FILE_FORMAT, m.nKey, m.nNew, m.nTried, 0x400 ^ BUCKETS_MARK,
              newInfos, triedInfos, buckets,
              m.env.asmapChecksum);
    ids := mapUnkIds;
    PickedAll(s, order, NewOnes(s));
    PickedAll(s, order, TriedOnes(s));
  }

  lemma {:induction false} PickedAll(s: State, order: seq<int>, ids: set<int>)
    requires Enumerates(order, s) && (ids == NewOnes(s) || ids == TriedOnes(s))
    ensures Distinct(Pick(order, ids)) && forall id :: id in Pick(order, ids) <==> id in ids
  {
    hide Pick;
    PickDistinct(order, ids);
    forall id: int ensures id in Pick(order, ids) <==> id in ids { PickMembers(order, ids, id); }
  }
}
