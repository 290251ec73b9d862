/** The address manager's consistency check. It returns 0 exactly on the states that
    `Consistent` describes, and the manager's invariant is that together with the few
    things the check does not look at. */
module AddrManCheck {
  import opened Prelude
  import opened AddrManModel
  import opened AddrManMoves
  import opened AddrMan

  /** What is checked of one entry. */
  predicate EntryOk(s: State, id: int)
    requires id in s.info
  {
    var i := s.info[id];
    && (if i.fInTried then i.lastSuccess != 0 && i.nRefCount == 0 else 0 < i.nRefCount <= NEW_BUCKETS_PER_ADDRESS)
    && i.addr in s.addr && s.addr[i.addr] == id
    && 0 <= i.nRandomPos < |s.random| && s.random[i.nRandomPos] == id
    && i.lastTry >= 0 && i.lastSuccess >= 0
  }

  ghost predicate EntriesOk(s: State) {
    forall id :: id in s.info ==> EntryOk(s, id)
  }

  predicate TriedSlotOk(s: State, k: Slot) {
    k in s.triedTable ==>
      var id := s.triedTable[k]; id in s.info && s.info[id].fInTried && k == s.at.TriedSlot(s.info[id].addr)
  }

  predicate NewSlotOk(s: State, k: Slot) {
    k in s.newTable ==>
      var id := s.newTable[k];
      id in s.info && !s.info[id].fInTried && k.bucket < NEW_BUCKETS && k == s.at.NewSlot(s.info[id].addr, k.bucket)
  }

  ghost function Networks(s: State): set<Network> {
    set id | id in s.info :: s.at.Network(s.info[id].addr)
  }

  ghost predicate CountsOk(s: State) {
    && |Networks(s)| <= |s.counts|
    && forall net :: net in s.counts ==>
         s.counts[net] == Count(|IdsOf(Kinds(s, {}), New(net))|, |IdsOf(Kinds(s, {}), Tried(net))|)
  }

  ghost predicate TablesOk(s: State) {
    && (forall k :: TriedSlotOk(s, k))
    && (forall id :: id in s.info && s.info[id].fInTried ==> id in s.triedTable.Values)
    && (forall k :: NewSlotOk(s, k))
    && (forall id :: id in s.info && !s.info[id].fInTried ==>
        s.info[id].nRefCount == |BucketsOf(s.at, s.newTable, s.info[id].addr, id)|)
  }

  ghost predicate TotalsOk(s: State) {
    |s.random| == s.nTried + s.nNew && |TriedIds(Kinds(s, {}))| == s.nTried && |NewIds(Kinds(s, {}))| == s.nNew
  }

  ghost predicate Consistent(s: State) {
    TotalsOk(s) && EntriesOk(s) && TablesOk(s) && s.at.key != 0 && CountsOk(s)
  }

  // ---------- What the check leaves out ----------

  /** Stale address keys, entries of networks without a counter, and unknown ids go unnoticed. */
  ghost predicate Unchecked(s: State) {
    && (forall a :: a in s.addr ==> var id := s.addr[a]; id in s.info && s.info[id].addr == a)
    && Networks(s) <= s.counts.Keys
    && (forall id :: id in s.info ==> 0 <= id < s.idCount && s.at.IsValid(s.info[id].addr))
    && (forall id :: id in s.collisions ==> 0 <= id < s.idCount)
  }

  // ---------- The invariant passes the check ----------

  lemma {:induction false} InvEntries(s: State)
    requires Inv(s) && Timed(s)
    ensures EntriesOk(s)
  {
    hide Placement.TriedSlot, Placement.NewSlot, Tallies;
    forall id | id in s.info ensures EntryOk(s, id) {
      if s.info[id].fInTried { TriedHasNoRefs(s, id); }
    }
  }

  lemma {:induction false} InvTables(s: State)
    requires TriedPlaced(s) && NewPlaced(s) && RefCounted(s)
    ensures TablesOk(s)
  {
    hide BucketsOf, Placement.TriedSlot, Placement.NewSlot;
    forall id | id in s.info && s.info[id].fInTried ensures id in s.triedTable.Values {
      var k := s.at.TriedSlot(s.info[id].addr);
      assert k in s.triedTable && s.triedTable[k] == id;
    }
  }

  lemma {:induction false} KindsSplit(kinds: map<int, Kind>)
    ensures |kinds| == |NewIds(kinds)| + |TriedIds(kinds)|
  {
    assert kinds.Keys == NewIds(kinds) + TriedIds(kinds);
    assert NewIds(kinds) !! TriedIds(kinds);
    KeysSize(kinds);
  }

  lemma {:induction false} AllKinds(s: State)
    ensures Kinds(s, {}).Keys == s.info.Keys
    ensures |s.info.Keys| == |NewIds(Kinds(s, {}))| + |TriedIds(Kinds(s, {}))|
  {
    hide NewIds, TriedIds;
    KindsSplit(Kinds(s, {}));
    KeysSize(Kinds(s, {}));
  }

  lemma {:induction false} ShuffledSize(s: State)
    requires Shuffled(s)
    ensures |s.random| == |s.info.Keys|
  {
    assert Distinct(s.random);
    DistinctSize(s.random);
    var ids := set id | id in s.random;
    forall id: int ensures id in ids <==> id in s.info.Keys {
      if id in s.info { assert s.random[s.info[id].nRandomPos] == id; }
    }
    assert ids == s.info.Keys;
  }

  lemma {:induction false} InvTotals(s: State)
    requires Shuffled(s) && Counted(s, {})
    ensures TotalsOk(s)
  {
    hide NewIds, TriedIds, IdsOf, Kinds, Shuffled, CountOf;
    ShuffledSize(s);
    AllKinds(s);
  }

  lemma {:induction false} NetworkCounted(s: State, id: int)
    requires Counted(s, {}) && id in s.info
    ensures s.at.Network(s.info[id].addr) in s.counts
  {
    var kinds, net := Kinds(s, {}), s.at.Network(s.info[id].addr);
    assert id in kinds && kinds[id] == KindOf(s.at, s.info[id]);
    assert id in IdsOf(kinds, kinds[id]);
    assert CountOf(s.counts, net) == Count(|IdsOf(kinds, New(net))|, |IdsOf(kinds, Tried(net))|);
  }

  lemma {:induction false} InvCounts(s: State)
    requires Counted(s, {})
    ensures CountsOk(s) && Networks(s) <= s.counts.Keys
  {
    hide Tallies;
    forall net | net in Networks(s) ensures net in s.counts.Keys {
      var id :| id in s.info && net == s.at.Network(s.info[id].addr);
      NetworkCounted(s, id);
    }
    SubsetSize(Networks(s), s.counts.Keys);
    InvCountsExact(s);
  }

  lemma {:induction false} InvCountsExact(s: State)
    requires Counted(s, {})
    ensures forall net :: net in s.counts ==>
      s.counts[net] == Count(|IdsOf(Kinds(s, {}), New(net))|, |IdsOf(Kinds(s, {}), Tried(net))|)
  {
    hide IdsOf, Kinds, NewIds, TriedIds;
    forall net | net in s.counts
      ensures s.counts[net] == Count(|IdsOf(Kinds(s, {}), New(net))|, |IdsOf(Kinds(s, {}), Tried(net))|)
    {
      assert CountOf(s.counts, net) == s.counts[net];
    }
  }

  // ---------- What passes the check is the invariant ----------

  /** Distinct entries at distinct places fill vRandom, so every place holds its entry. */
  lemma {:induction false} CheckedShuffled(s: State)
    requires EntriesOk(s) && |s.random| == |s.info.Keys|
    ensures Shuffled(s)
  {
    var places := set id | id in s.info.Keys :: s.info[id].nRandomPos;
    Places(s, s.info.Keys);
    var whole := Range(|s.random|);
    assert places <= whole;
    SameSize(places, whole);
    forall i | 0 <= i < |s.random| ensures var id := s.random[i]; id in s.info && s.info[id].nRandomPos == i {
      assert i in places;
      var id :| id in s.info.Keys && s.info[id].nRandomPos == i;
      assert EntryOk(s, id);
    }
    assert forall id :: id in s.info ==> EntryOk(s, id);
  }

  lemma {:induction false} Places(s: State, ids: set<int>)
    requires EntriesOk(s) && ids <= s.info.Keys
    ensures |set id | id in ids :: s.info[id].nRandomPos| == |ids|
    decreases |ids|
  {
    if ids != {} {
      Inhabited(ids);
      var x :| x in ids;
      var rest := ids - {x};
      Places(s, rest);
      var p := set id | id in rest :: s.info[id].nRandomPos;
      assert (set id | id in ids :: s.info[id].nRandomPos) == p + {s.info[x].nRandomPos};
      assert s.info[x].nRandomPos !in p by {
        assert EntryOk(s, x) && forall id :: id in rest ==> EntryOk(s, id);
      }
    }
  }

  ghost function Range(n: nat): (r: set<int>)
    ensures |r| == n && forall i :: i in r <==> 0 <= i < n
  {
    if n == 0 then {} else Range(n - 1) + {n - 1}
  }

  lemma {:induction false} CheckedTables(s: State)
    requires EntriesOk(s) && TablesOk(s)
    ensures TriedPlaced(s) && NewPlaced(s) && RefCounted(s)
  {
    hide Placement.TriedSlot, Placement.NewSlot;
    forall k | k in s.triedTable
      ensures var id := s.triedTable[k]; id in s.info && s.info[id].fInTried && k == s.at.TriedSlot(s.info[id].addr)
    {
      assert TriedSlotOk(s, k);
    }
    forall id | id in s.info && s.info[id].fInTried
      ensures var k := s.at.TriedSlot(s.info[id].addr); k in s.triedTable && s.triedTable[k] == id
    {
      var k :| k in s.triedTable && s.triedTable[k] == id;
      assert TriedSlotOk(s, k);
    }
    CheckedNew(s);
  }

  lemma {:induction false} CheckedNew(s: State)
    requires EntriesOk(s) && TablesOk(s)
    ensures NewPlaced(s) && RefCounted(s)
  {
    hide Placement.TriedSlot, Placement.Position;
    forall k | k in s.newTable
      ensures var id := s.newTable[k];
        id in s.info && !s.info[id].fInTried && k.bucket < NEW_BUCKETS && k == s.at.NewSlot(s.info[id].addr, k.bucket)
    {
      assert NewSlotOk(s, k);
    }
    assert NewPlaced(s);
    forall id | id in s.info ensures s.info[id].nRefCount == |BucketsOf(s.at, s.newTable, s.info[id].addr, id)| {
      assert EntryOk(s, id);
      if s.info[id].fInTried { assert BucketsOf(s.at, s.newTable, s.info[id].addr, id) == {}; }
    }
  }

  lemma {:induction false} CheckedCounts(s: State)
    requires TotalsOk(s) && CountsOk(s) && Networks(s) <= s.counts.Keys
    ensures Counted(s, {})
  {
    var kinds := Kinds(s, {});
    forall net: Network
      ensures CountOf(s.counts, net) == Count(|IdsOf(kinds, New(net))|, |IdsOf(kinds, Tried(net))|)
    {
      if net !in s.counts {
        UncountedNetwork(s, net);
      }
    }
  }

  lemma {:induction false} UncountedNetwork(s: State, net: Network)
    requires net !in Networks(s)
    ensures IdsOf(Kinds(s, {}), New(net)) == {} && IdsOf(Kinds(s, {}), Tried(net)) == {}
  {
    var kinds := Kinds(s, {});
    forall id | id in kinds ensures kinds[id] != New(net) && kinds[id] != Tried(net) {
      assert s.at.Network(s.info[id].addr) in Networks(s);
    }
  }

  /** The manager's invariant is exactly what the check demands together with what it leaves out. */
  lemma {:induction false} InvIffConsistent(s: State)
    ensures Inv(s) && Timed(s) <==> Consistent(s) && Unchecked(s)
  {
    hide Shuffled, TriedPlaced, NewPlaced, RefCounted, Counted, TablesOk, CountsOk, Placement.IsValid, EntryOk;
    if Inv(s) && Timed(s) {
      InvEntries(s);
      InvTables(s);
      InvTotals(s);
      InvCounts(s);
      InvUnchecked(s);
    }
    if Consistent(s) && Unchecked(s) {
      AllKinds(s);
      CheckedShuffled(s);
      CheckedTables(s);
      CheckedCounts(s);
      CheckedRest(s);
    }
  }

  /** On the invariant the check passes exactly if the recorded times are sensible. */
  lemma {:induction false} ConsistentIffTimed(s: State)
    requires Inv(s)
    ensures Consistent(s) <==> Timed(s)
  {
    InvIffConsistent(s);
    hide Shuffled, TriedPlaced, NewPlaced, RefCounted, Counted, TablesOk, CountsOk, Placement.IsValid, EntryOk,
         Consistent, Timed;
    InvCounts(s);
    InvUnchecked(s);
  }

  lemma {:induction false} InvUnchecked(s: State)
    requires Addressed(s) && Sensible(s) && Networks(s) <= s.counts.Keys
    ensures Unchecked(s)
  {
  }

  lemma {:induction false} CheckedRest(s: State)
    requires EntriesOk(s) && Unchecked(s) && s.at.key != 0
    ensures Addressed(s) && Sensible(s) && Referenced(s, {}) && Timed(s)
  {
    assert forall id :: id in s.info ==> EntryOk(s, id);
  }

  /** A consistent manager with a stale address: the check alone does not give the invariant. */
  lemma CheckMissesStaleAddress(env: Env)
    ensures var s := State(Placement(env, 1), 0, map[], map[Service(0, 0) := 0], [], 0, map[], 0, map[], 1, {}, map[]);
      Consistent(s) && !Inv(s)
  {
    var s := State(Placement(env, 1), 0, map[], map[Service(0, 0) := 0], [], 0, map[], 0, map[], 1, {}, map[]);
    assert Kinds(s, {}) == map[] && Networks(s) == {};
    assert s.addr[Service(0, 0)] !in s.info;
  }

  /** A manager with one untried entry, whose network has no counter while another one has. */
  ghost function Miscounted(env: Env, a: Service): State {
    var at := Placement(env, 1);
    State(at, 1, map[0 := AddrInfo(a, 0, 0, 0, 0, a.ip, 0, 0, 1, false, 0)], map[a := 0], [0], 0, map[], 1,
          map[at.NewSlot(a, 0) := 0], 1, {}, map[at.Network(a) + 1 := Count(0, 0)])
  }

  lemma {:induction false} MiscountedTables(s: State, env: Env, a: Service)
    requires s == Miscounted(env, a)
    ensures EntriesOk(s) && TablesOk(s)
  {
    hide Placement.Position;
    assert BucketsOf(s.at, s.newTable, a, 0) == {0};
  }

  /** The check does not notice the missing counter. */
  lemma {:induction false} CheckMissesNetwork(env: Env, a: Service)
    ensures Consistent(Miscounted(env, a)) && !Inv(Miscounted(env, a))
  {
    var s := Miscounted(env, a);
    MiscountedTables(s, env, a);
    hide EntriesOk, TablesOk, Placement.Position;
    var net := s.at.Network(a);
    MiscountedKinds(s, env, a);
    UncountedNetwork(s, net + 1);
    assert net in Networks(s) && net !in s.counts;
    hide Networks, Kinds, NewIds, TriedIds;
    if Inv(s) { InvCounts(s); }
  }

  lemma {:induction false} MiscountedKinds(s: State, env: Env, a: Service)
    requires s == Miscounted(env, a)
    ensures Networks(s) == {s.at.Network(a)}
    ensures NewIds(Kinds(s, {})) == {0} && TriedIds(Kinds(s, {})) == {}
  {
    hide Placement.Position, Placement.NewSlot;
    var net := s.at.Network(a);
    assert 0 in s.info && forall id :: id in s.info ==> id == 0 && s.info[id].addr == a && !s.info[id].fInTried;
    assert Kinds(s, {}) == map[0 := New(net)];
    forall n: Network ensures n in Networks(s) <==> n == net {
      assert s.at.Network(s.info[0].addr) in Networks(s);
    }
  }

  // ---------- The check itself ----------

  /** How the entries in `done` are counted. */
  ghost function KindsIn(s: State, done: set<int>): map<int, Kind> {
    map id | id in done && id in s.info :: KindOf(s.at, s.info[id])
  }

  ghost predicate SortedIds(s: State, done: set<int>, setTried: set<int>, mapNew: map<int, int>) {
    && (forall id :: id in setTried <==> id in done && id in s.info && s.info[id].fInTried)
    && (forall id :: id in mapNew <==> id in done && id in s.info && !s.info[id].fInTried)
    && (forall id :: id in mapNew ==> mapNew[id] == s.info[id].nRefCount)
  }

  ghost function NetworksIn(s: State, done: set<int>): set<Network> {
    set id | id in done && id in s.info :: s.at.Network(s.info[id].addr)
  }

  ghost predicate SortedCounts(s: State, done: set<int>, nNew: int, nTried: int, local: map<Network, Count>) {
    Tallies(KindsIn(s, done), nNew, nTried, local) && local.Keys == NetworksIn(s, done)
  }

  /** The entries in `done`, sorted by table and counted by network. */
  ghost predicate Sorted(s: State, done: set<int>, setTried: set<int>, mapNew: map<int, int>,
                         local: map<Network, Count>) {
    SortedIds(s, done, setTried, mapNew) && SortedCounts(s, done, |mapNew|, |setTried|, local)
  }

  lemma {:induction false} NetworksOne(s: State, done: set<int>, id: int)
    requires id in s.info
    ensures NetworksIn(s, done + {id}) == NetworksIn(s, done) + {s.at.Network(s.info[id].addr)}
  {
  }

  lemma {:induction false} CountsOne(s: State, done: set<int>, id: int, nNew: int, nTried: int,
                                     local: map<Network, Count>)
    requires SortedCounts(s, done, nNew, nTried, local) && id in s.info && id !in done
    ensures var t := s.info[id].fInTried;
      SortedCounts(s, done + {id}, nNew + One(!t), nTried + One(t), Adjust(local, s.at.Network(s.info[id].addr), One(!t), One(t)))
  {
    hide Tallies, NetworksIn;
    var kinds, kind := KindsIn(s, done), KindOf(s.at, s.info[id]);
    assert KindsIn(s, done + {id}) == kinds[id := kind];
    TallyOne(kinds, id, kind, nNew, nTried, local);
    NetworksOne(s, done, id);
  }

  lemma {:induction false} SortedOne(s: State, done: set<int>, id: int, setTried: set<int>, mapNew: map<int, int>,
                                     local: map<Network, Count>)
    requires Sorted(s, done, setTried, mapNew, local) && id in s.info && id !in done
    ensures var i := s.info[id]; var net := s.at.Network(i.addr);
      if i.fInTried then Sorted(s, done + {id}, setTried + {id}, mapNew, Adjust(local, net, 0, 1))
      else Sorted(s, done + {id}, setTried, mapNew[id := i.nRefCount], Adjust(local, net, 1, 0))
  {
    hide SortedCounts;
    CountsOne(s, done, id, |mapNew|, |setTried|, local);
    assert id !in mapNew && id !in setTried;
  }

  lemma {:induction false} SortedStart(s: State)
    ensures Sorted(s, {}, {}, map[], map[])
  {
    assert KindsIn(s, {}) == map[];
  }

  /** With every entry sorted, the sizes are those the totals are checked against. */
  lemma {:induction false} SortedAll(s: State, setTried: set<int>, mapNew: map<int, int>, local: map<Network, Count>)
    requires Sorted(s, s.info.Keys, setTried, mapNew, local)
    ensures |setTried| == |TriedIds(Kinds(s, {}))| && |mapNew| == |NewIds(Kinds(s, {}))|
    ensures local.Keys == Networks(s)
    ensures forall net: Network :: CountOf(local, net) == Count(|IdsOf(Kinds(s, {}), New(net))|, |IdsOf(Kinds(s, {}), Tried(net))|)
  {
    assert KindsIn(s, s.info.Keys) == Kinds(s, {});
  }

  /** First pass: every entry by itself. */
  method CheckEntries(m: AddrManImpl)
      returns (code: int, setTried: set<int>, mapNew: map<int, int>, local: map<Network, Count>)
    requires m.Shaped()
    ensures code == 0 <==> EntriesOk(m.St())
    ensures code == 0 ==> Sorted(m.St(), m.mapInfo.Keys, setTried, mapNew, local)
  {
    hide Sorted, EntryOk;
    ghost var s := m.St();
    setTried, mapNew, local := {}, map[], map[];
    var todo := m.mapInfo.Keys;
    SortedStart(s);
    assert m.mapInfo.Keys - todo == {};
    while todo != {}
      invariant todo <= m.mapInfo.Keys && Sorted(s, m.mapInfo.Keys - todo, setTried, mapNew, local)
      invariant forall id :: id in s.info && id !in todo ==> EntryOk(s, id)
      decreases todo
    {
      Inhabited(todo);
      var n :| n in todo;
      code, setTried, mapNew, local := SortEntry(m, n, m.mapInfo.Keys - todo, setTried, mapNew, local);
      if code != 0 {
        return;
      }
      assert m.mapInfo.Keys - (todo - {n}) == m.mapInfo.Keys - todo + {n};
      todo := todo - {n};
    }
    assert m.mapInfo.Keys - todo == m.mapInfo.Keys;
    code := 0;
  }

  method SortEntry(m: AddrManImpl, n: int, ghost done: set<int>, setTried: set<int>, mapNew: map<int, int>,
                   local: map<Network, Count>)
    returns (code: int, tried: set<int>, news: map<int, int>, counts: map<Network, Count>)
    requires m.Shaped() && n in m.mapInfo && n !in done && Sorted(m.St(), done, setTried, mapNew, local)
    ensures code == 0 <==> EntryOk(m.St(), n)
    ensures code == 0 ==> Sorted(m.St(), done + {n}, tried, news, counts)
  {
    hide Sorted, EntryOk, Adjust;
    tried, news, counts := setTried, mapNew, local;
    code := CheckEntry(m, n);
    if code != 0 {
      return;
    }
    var info := m.mapInfo[n];
    var net := m.At().Network(info.addr);
    SortedOne(m.St(), done, n, setTried, mapNew, local);
    if info.fInTried {
      tried, counts := setTried + {n}, Adjust(local, net, 0, 1);
    } else {
      news, counts := mapNew[n := info.nRefCount], Adjust(local, net, 1, 0);
    }
  }

  method CheckEntry(m: AddrManImpl, n: int) returns (code: int)
    requires m.Shaped() && n in m.mapInfo
    ensures code == 0 <==> EntryOk(m.St(), n)
  {
    var info := m.mapInfo[n];
    if info.fInTried {
      if info.lastSuccess == 0 { return -1; }
      if info.nRefCount != 0 { return -2; }
    } else {
      if info.nRefCount < 0 || info.nRefCount > NEW_BUCKETS_PER_ADDRESS { return -3; }
      if info.nRefCount == 0 { return -4; }
    }
    if info.addr !in m.mapAddr || m.mapAddr[info.addr] != n { return -5; }
    if info.nRandomPos < 0 || info.nRandomPos >= |m.vRandom| || m.vRandom[info.nRandomPos] != n { return -14; }
    if info.lastTry < 0 { return -6; }
    if info.lastSuccess < 0 { return -8; }
    code := 0;
  }

  // ---------- Scanning the tables ----------

  /** Slots that come before row `n`, column `i` in the scan. */
  ghost predicate Before(k: Slot, n: nat, i: nat) {
    k.bucket < n || (k.bucket == n && k.pos < i)
  }

  lemma BeforeOne(k: Slot, n: nat, i: nat)
    ensures Before(k, n, i + 1) <==> Before(k, n, i) || k == Slot(n, i)
  {
  }

  lemma {:induction false} BeforeNext(n: nat, i: nat)
    ensures forall k :: Before(k, n, i + 1) <==> Before(k, n, i) || k == Slot(n, i)
  {
    hide Before;
    forall k: Slot ensures Before(k, n, i + 1) <==> Before(k, n, i) || k == Slot(n, i) {
      BeforeOne(k, n, i);
    }
  }

  lemma InGrid(vv: array2<int>)
    ensures forall k :: k in TableOf(vv) ==> k.bucket < vv.Length0 && k.pos < vv.Length1 && vv[k.bucket, k.pos] == TableOf(vv)[k]
    ensures forall b: nat, p: nat :: b < vv.Length0 && p < vv.Length1 && vv[b, p] != -1 ==> Slot(b, p) in TableOf(vv)
  {
  }

  ghost function SeenTried(s: State, n: nat, i: nat): set<int> {
    set k | k in s.triedTable && Before(k, n, i) :: s.triedTable[k]
  }

  /** After the scan of the tried slots before (n, i). */
  ghost predicate TriedScanned(s: State, n: nat, i: nat, setTried: set<int>, rest: set<int>) {
    (forall k :: Before(k, n, i) ==> TriedSlotOk(s, k)) && rest == setTried - SeenTried(s, n, i)
  }

  lemma {:induction false} TriedEmptySlot(s: State, n: nat, i: nat, setTried: set<int>, rest: set<int>)
    requires TriedScanned(s, n, i, setTried, rest) && Slot(n, i) !in s.triedTable
    ensures TriedScanned(s, n, i + 1, setTried, rest)
  {
    hide TriedSlotOk;
    assert TriedSlotOk(s, Slot(n, i)) by { EmptyTriedOk(s, Slot(n, i)); }
    BeforeNext(n, i);
    assert SeenTried(s, n, i + 1) == SeenTried(s, n, i);
  }

  lemma EmptyTriedOk(s: State, k: Slot)
    requires k !in s.triedTable
    ensures TriedSlotOk(s, k)
  {
  }

  lemma {:induction false} TriedGoodSlot(s: State, n: nat, i: nat, setTried: set<int>, rest: set<int>, x: int)
    requires TriedScanned(s, n, i, setTried, rest) && Slot(n, i) in s.triedTable && s.triedTable[Slot(n, i)] == x
    requires TriedSlotOk(s, Slot(n, i))
    ensures TriedScanned(s, n, i + 1, setTried, rest - {x})
  {
    hide TriedSlotOk;
    BeforeNext(n, i);
    assert SeenTried(s, n, i + 1) == SeenTried(s, n, i) + {x};
  }

  /** An id that is not left over makes its slot wrong: it is no tried entry, or it was met before. */
  lemma {:induction false} TriedMissing(s: State, n: nat, i: nat, setTried: set<int>, rest: set<int>, x: int)
    requires TriedScanned(s, n, i, setTried, rest) && Slot(n, i) in s.triedTable && s.triedTable[Slot(n, i)] == x
    requires x !in rest
    requires forall id :: id in setTried <==> id in s.info && s.info[id].fInTried
    ensures !TriedSlotOk(s, Slot(n, i))
  {
    hide Placement.TriedSlot;
    if x in setTried {
      var k :| k in s.triedTable && Before(k, n, i) && s.triedTable[k] == x;
      assert TriedSlotOk(s, k);
    }
  }

  lemma {:induction false} TriedNextRow(s: State, n: nat, setTried: set<int>, rest: set<int>)
    requires TriedScanned(s, n, BUCKET_SIZE, setTried, rest)
    requires forall k :: k in s.triedTable ==> k.pos < BUCKET_SIZE
    ensures TriedScanned(s, n + 1, 0, setTried, rest)
  {
    hide Placement.TriedSlot;
    assert SeenTried(s, n + 1, 0) == SeenTried(s, n, BUCKET_SIZE);
    forall k | Before(k, n + 1, 0) ensures TriedSlotOk(s, k) {
      if k in s.triedTable { assert Before(k, n, BUCKET_SIZE); }
    }
  }

  lemma {:induction false} TriedScanEnds(s: State, setTried: set<int>, rest: set<int>)
    requires TriedScanned(s, TRIED_BUCKETS, 0, setTried, rest)
    requires forall k :: k in s.triedTable ==> k.bucket < TRIED_BUCKETS
    requires forall id :: id in setTried <==> id in s.info && s.info[id].fInTried
    ensures forall k :: TriedSlotOk(s, k)
    ensures rest == {} <==> forall id :: id in s.info && s.info[id].fInTried ==> id in s.triedTable.Values
  {
    hide Placement.TriedSlot;
    forall k ensures TriedSlotOk(s, k) {
      if k in s.triedTable { assert Before(k, TRIED_BUCKETS, 0); }
    }
    forall id: int ensures id in SeenTried(s, TRIED_BUCKETS, 0) <==> id in s.triedTable.Values {
      if id in s.triedTable.Values {
        var k :| k in s.triedTable && s.triedTable[k] == id;
        assert Before(k, TRIED_BUCKETS, 0);
      }
    }
    assert forall id :: id in rest <==> id in setTried && id !in s.triedTable.Values;
    assert (forall id :: id !in rest) ==> rest == {};
  }

  method CheckTriedTable(m: AddrManImpl, setTried: set<int>) returns (code: int, rest: set<int>)
    requires m.Shaped() && forall id :: id in setTried <==> id in m.mapInfo && m.mapInfo[id].fInTried
    ensures code == 0 <==> forall k :: TriedSlotOk(m.St(), k)
    ensures code == 0 ==> (rest == {} <==> forall id :: id in m.mapInfo && m.mapInfo[id].fInTried ==> id in m.St().triedTable.Values)
  {
    hide TriedScanned, TriedSlotOk, Placement.TriedBucket, Placement.Position;
    ghost var s := m.St();
    InGrid(m.vvTried);
    rest := setTried;
    TriedScanStarts(s, setTried);
    for n := 0 to TRIED_BUCKETS
      invariant TriedScanned(s, n, 0, setTried, rest)
    {
      for i := 0 to BUCKET_SIZE
        invariant TriedScanned(s, n, i, setTried, rest)
      {
        if m.vvTried[n, i] != -1 {
          var x := m.vvTried[n, i];
          code := CheckTriedSlot(m, n, i, x, rest, s, setTried);
          if code != 0 {
            assert !TriedSlotOk(m.St(), Slot(n, i));
            return;
          }
          TriedGoodSlot(s, n, i, setTried, rest, x);
          rest := rest - {x};
        } else {
          TriedEmptySlot(s, n, i, setTried, rest);
        }
      }
      TriedNextRow(s, n, setTried, rest);
    }
    TriedScanEnds(s, setTried, rest);
    code := 0;
  }

  method CheckTriedSlot(m: AddrManImpl, n: nat, i: nat, x: int, rest: set<int>, ghost s: State,
                        ghost setTried: set<int>)
      returns (code: int)
    requires m.Shaped() && s == m.St() && Slot(n, i) in s.triedTable && s.triedTable[Slot(n, i)] == x
    requires TriedScanned(s, n, i, setTried, rest)
    requires forall id :: id in setTried <==> id in s.info && s.info[id].fInTried
    ensures code == 0 <==> TriedSlotOk(s, Slot(n, i))
  {
    hide TriedScanned, Placement.TriedBucket, Placement.Position;
    if x !in rest {
      TriedMissing(s, n, i, setTried, rest, x);
      return -11;
    }
    RestIsTried(s, n, i, setTried, rest, x);
    if m.At().TriedBucket(m.mapInfo[x].addr) != n {
      return -17;
    }
    if m.At().Position(false, n, m.mapInfo[x].addr) != i {
      return -18;
    }
    code := 0;
  }

  lemma RestIsTried(s: State, n: nat, i: nat, setTried: set<int>, rest: set<int>, x: int)
    requires TriedScanned(s, n, i, setTried, rest) && x in rest
    ensures x in setTried
  {
  }

  lemma {:induction false} TriedScanStarts(s: State, setTried: set<int>)
    ensures TriedScanned(s, 0, 0, setTried, setTried)
  {
    assert SeenTried(s, 0, 0) == {};
  }

  /** The buckets before (n, i) whose slot holds `id`. */
  ghost function SeenBuckets(s: State, id: int, n: nat, i: nat): set<nat>
    requires id in s.info
  {
    set b | b in BucketsOf(s.at, s.newTable, s.info[id].addr, id) && Before(s.at.NewSlot(s.info[id].addr, b), n, i)
  }

  ghost predicate Remaining(s: State, id: int, n: nat, i: nat, rest: map<int, int>)
    requires id in s.info
  {
    var seen, refs := |SeenBuckets(s, id, n, i)|, s.info[id].nRefCount;
    seen <= refs && (id in rest <==> seen < refs) && (id in rest ==> rest[id] == refs - seen)
  }

  /** After the scan of the new slots before (n, i): what is left of each reference count. */
  ghost predicate NewScanned(s: State, n: nat, i: nat, rest: map<int, int>) {
    && (forall k :: Before(k, n, i) ==> NewSlotOk(s, k))
    && (forall id :: id in rest ==> id in s.info && !s.info[id].fInTried)
    && (forall id :: id in s.info && !s.info[id].fInTried ==> Remaining(s, id, n, i, rest))
  }

  lemma {:induction false} NewScanStarts(s: State, mapNew: map<int, int>)
    requires EntriesOk(s)
    requires forall id :: id in mapNew <==> id in s.info && !s.info[id].fInTried
    requires forall id :: id in mapNew ==> mapNew[id] == s.info[id].nRefCount
    ensures NewScanned(s, 0, 0, mapNew)
  {
    hide Placement.NewSlot;
    forall id | id in s.info && !s.info[id].fInTried ensures Remaining(s, id, 0, 0, mapNew) {
      assert EntryOk(s, id);
      assert SeenBuckets(s, id, 0, 0) == {};
    }
  }

  /** Passing a correctly filled slot adds its bucket to what was seen of its occupant only. */
  lemma {:induction false} SeenOne(s: State, id: int, n: nat, i: nat, x: int)
    requires id in s.info && Slot(n, i) in s.newTable && s.newTable[Slot(n, i)] == x && NewSlotOk(s, Slot(n, i))
    ensures |SeenBuckets(s, id, n, i + 1)| == |SeenBuckets(s, id, n, i)| + One(id == x)
  {
    hide Placement.Position;
    BeforeNext(n, i);
    var a := s.info[id].addr;
    if id == x {
      assert n in BucketsOf(s.at, s.newTable, a, id);
      assert SeenBuckets(s, id, n, i + 1) == SeenBuckets(s, id, n, i) + {n};
    } else {
      assert SeenBuckets(s, id, n, i + 1) == SeenBuckets(s, id, n, i);
    }
  }

  lemma {:induction false} SeenNone(s: State, id: int, n: nat, i: nat)
    requires id in s.info && Slot(n, i) !in s.newTable
    ensures SeenBuckets(s, id, n, i + 1) == SeenBuckets(s, id, n, i)
  {
    hide Placement.NewSlot;
    BeforeNext(n, i);
  }

  lemma {:induction false} NewEmptySlot(s: State, n: nat, i: nat, rest: map<int, int>)
    requires NewScanned(s, n, i, rest) && Slot(n, i) !in s.newTable
    ensures NewScanned(s, n, i + 1, rest)
  {
    hide Placement.NewSlot, BucketsOf, SeenBuckets;
    BeforeNext(n, i);
    forall id | id in s.info && !s.info[id].fInTried ensures Remaining(s, id, n, i + 1, rest) {
      SeenNone(s, id, n, i);
      assert Remaining(s, id, n, i, rest);
    }
  }

  function CountDown(rest: map<int, int>, x: int): map<int, int>
    requires x in rest
  {
    if rest[x] == 1 then rest - {x} else rest[x := rest[x] - 1]
  }

  lemma {:induction false} NewGoodSlot(s: State, n: nat, i: nat, rest: map<int, int>, x: int)
    requires NewScanned(s, n, i, rest) && Slot(n, i) in s.newTable && s.newTable[Slot(n, i)] == x && x in rest
    requires NewSlotOk(s, Slot(n, i))
    ensures NewScanned(s, n, i + 1, CountDown(rest, x))
  {
    hide Placement.NewSlot, BucketsOf, SeenBuckets, NewSlotOk;
    BeforeNext(n, i);
    forall id | id in s.info && !s.info[id].fInTried ensures Remaining(s, id, n, i + 1, CountDown(rest, x)) {
      SeenOne(s, id, n, i, x);
      assert Remaining(s, id, n, i, rest);
    }
  }

  /** An id with nothing left makes its slot wrong or its reference count too small. */
  lemma {:induction false} NewMissing(s: State, n: nat, i: nat, rest: map<int, int>, x: int)
    requires NewScanned(s, n, i, rest) && Slot(n, i) in s.newTable && s.newTable[Slot(n, i)] == x && x !in rest
    ensures !NewSlotOk(s, Slot(n, i)) || s.info[x].nRefCount != |BucketsOf(s.at, s.newTable, s.info[x].addr, x)|
  {
    hide Placement.Position;
    if NewSlotOk(s, Slot(n, i)) {
      assert Remaining(s, x, n, i, rest);
      SeenOne(s, x, n, i, x);
      SubsetSize(SeenBuckets(s, x, n, i + 1), BucketsOf(s.at, s.newTable, s.info[x].addr, x));
    }
  }

  lemma {:induction false} SeenRow(s: State, id: int, n: nat)
    requires id in s.info
    ensures SeenBuckets(s, id, n + 1, 0) == SeenBuckets(s, id, n, BUCKET_SIZE)
  {
  }

  lemma {:induction false} NewNextRow(s: State, n: nat, rest: map<int, int>)
    requires NewScanned(s, n, BUCKET_SIZE, rest)
    requires forall k :: k in s.newTable ==> k.pos < BUCKET_SIZE
    ensures NewScanned(s, n + 1, 0, rest)
  {
    hide Placement.NewSlot, BucketsOf, SeenBuckets;
    forall k | Before(k, n + 1, 0) ensures NewSlotOk(s, k) {
      if k in s.newTable { assert Before(k, n, BUCKET_SIZE); }
    }
    forall id | id in s.info && !s.info[id].fInTried ensures Remaining(s, id, n + 1, 0, rest) {
      SeenRow(s, id, n);
      assert Remaining(s, id, n, BUCKET_SIZE, rest);
    }
  }

  lemma {:induction false} SeenAll(s: State, id: int)
    requires id in s.info
    ensures SeenBuckets(s, id, NEW_BUCKETS, 0) == BucketsOf(s.at, s.newTable, s.info[id].addr, id)
  {
  }

  ghost predicate RefsOk(s: State) {
    forall id :: id in s.info && !s.info[id].fInTried ==>
      s.info[id].nRefCount == |BucketsOf(s.at, s.newTable, s.info[id].addr, id)|
  }

  lemma {:induction false} NewScanEnds(s: State, rest: map<int, int>)
    requires NewScanned(s, NEW_BUCKETS, 0, rest)
    requires forall k :: k in s.newTable ==> k.bucket < NEW_BUCKETS
    ensures forall k :: NewSlotOk(s, k)
    ensures rest == map[] <==> RefsOk(s)
  {
    hide Placement.NewSlot, BucketsOf, SeenBuckets;
    forall k ensures NewSlotOk(s, k) {
      if k in s.newTable { assert Before(k, NEW_BUCKETS, 0); }
    }
    forall id | id in s.info && !s.info[id].fInTried
      ensures id in rest <==> s.info[id].nRefCount != |BucketsOf(s.at, s.newTable, s.info[id].addr, id)|
    {
      SeenAll(s, id);
      assert Remaining(s, id, NEW_BUCKETS, 0, rest);
    }
    assert (forall id :: id !in rest) ==> rest == map[];
  }

  method CheckNewTable(m: AddrManImpl, mapNew: map<int, int>) returns (code: int, rest: map<int, int>)
    requires m.Shaped() && EntriesOk(m.St())
    requires forall id :: id in mapNew <==> id in m.mapInfo && !m.mapInfo[id].fInTried
    requires forall id :: id in mapNew ==> mapNew[id] == m.mapInfo[id].nRefCount
    ensures code != 0 ==> !((forall k :: NewSlotOk(m.St(), k)) && RefsOk(m.St()))
    ensures code == 0 ==> (forall k :: NewSlotOk(m.St(), k)) && (rest == map[] <==> RefsOk(m.St()))
  {
    hide NewScanned, NewSlotOk, EntryOk, RefsOk, Placement.Position;
    ghost var s := m.St();
    InGrid(m.vvNew);
    rest := mapNew;
    NewScanStarts(s, mapNew);
    for n := 0 to NEW_BUCKETS
      invariant NewScanned(s, n, 0, rest)
    {
      for i := 0 to BUCKET_SIZE
        invariant NewScanned(s, n, i, rest)
      {
        if m.vvNew[n, i] != -1 {
          var x := m.vvNew[n, i];
          code := CheckNewSlot(m, n, i, x, rest, s);
          if code != 0 {
            return;
          }
          NewGoodSlot(s, n, i, rest, x);
          rest := CountDown(rest, x);
        } else {
          NewEmptySlot(s, n, i, rest);
        }
      }
      NewNextRow(s, n, rest);
    }
    NewScanEnds(s, rest);
    code := 0;
  }

  method CheckNewSlot(m: AddrManImpl, n: nat, i: nat, x: int, rest: map<int, int>, ghost s: State) returns (code: int)
    requires m.Shaped() && s == m.St() && Slot(n, i) in s.newTable && s.newTable[Slot(n, i)] == x && n < NEW_BUCKETS
    requires NewScanned(s, n, i, rest)
    ensures code == 0 ==> x in rest && NewSlotOk(s, Slot(n, i))
    ensures code != 0 ==> !((forall k :: NewSlotOk(s, k)) && RefsOk(s))
  {
    hide NewScanned, Placement.Position, BucketsOf;
    if x !in rest {
      NewMissing(s, n, i, rest, x);
      assert NewSlotOk(s, Slot(n, i)) ==> !RefsOk(s);
      return -12;
    }
    RestIsNew(s, n, i, rest, x);
    if m.At().Position(true, n, m.mapInfo[x].addr) != i {
      assert !NewSlotOk(s, Slot(n, i));
      return -19;
    }
    code := 0;
  }

  lemma RestIsNew(s: State, n: nat, i: nat, rest: map<int, int>, x: int)
    requires NewScanned(s, n, i, rest) && x in rest
    ensures x in s.info && !s.info[x].fInTried
  {
  }

  // ---------- All of it ----------

  method CheckNetworks(m: AddrManImpl, local: map<Network, Count>) returns (code: int)
    requires m.Shaped() && local.Keys == Networks(m.St())
    requires forall net: Network ::
      CountOf(local, net) == Count(|IdsOf(Kinds(m.St(), {}), New(net))|, |IdsOf(Kinds(m.St(), {}), Tried(net))|)
    ensures code == 0 <==> CountsOk(m.St())
  {
    hide Networks, Kinds, IdsOf;
    ghost var s := m.St();
    if |m.networkCounts| < |local| {
      KeysSize(local);
      return -20;
    }
    KeysSize(local);
    var todo := m.networkCounts.Keys;
    while todo != {}
      invariant todo <= m.networkCounts.Keys
      invariant forall net :: net in m.networkCounts && net !in todo ==> CountOf(local, net) == m.networkCounts[net]
      decreases todo
    {
      SomeNetwork(todo);
      var net :| net in todo;
      if CountOf(local, net) != m.networkCounts[net] {
        assert net in s.counts;
        return -21;
      }
      todo := todo - {net};
    }
    code := 0;
  }

  lemma SomeNetwork(nets: set<Network>)
    requires nets != {}
    ensures exists net :: net in nets
  {
    assert (forall net :: net !in nets) ==> nets == {};
  }

  /** Returns 0 exactly on consistent states. */
  method CheckAddrman(m: AddrManImpl) returns (code: int)
    requires m.Shaped()
    ensures code == 0 <==> Consistent(m.St())
  {
    hide Sorted, EntryOk, TriedSlotOk, NewSlotOk, CountsOk, Kinds, TriedIds, NewIds, IdsOf, Networks, BucketsOf;
    ghost var s := m.St();
    if |m.vRandom| != m.nTried + m.nNew {
      return -7;
    }
    var setTried, mapNew, local;
    code, setTried, mapNew, local := CheckEntries(m);
    if code != 0 {
      return;
    }
    SortedAll(s, setTried, mapNew, local);
    SortedUse(s, setTried, mapNew, local);
    if |setTried| != m.nTried {
      return -9;
    }
    if |mapNew| != m.nNew {
      return -10;
    }
    var restTried, restNew;
    code, restTried := CheckTriedTable(m, setTried);
    if code != 0 {
      return;
    }
    code, restNew := CheckNewTable(m, mapNew);
    if code != 0 {
      return;
    }
    if restTried != {} {
      return -13;
    }
    if restNew != map[] {
      return -15;
    }
    if m.nKey == 0 {
      return -16;
    }
    code := CheckNetworks(m, local);
  }

  lemma SortedUse(s: State, setTried: set<int>, mapNew: map<int, int>, local: map<Network, Count>)
    requires Sorted(s, s.info.Keys, setTried, mapNew, local)
    ensures forall id :: id in setTried <==> id in s.info && s.info[id].fInTried
    ensures forall id :: id in mapNew <==> id in s.info && !s.info[id].fInTried
    ensures forall id :: id in mapNew ==> mapNew[id] == s.info[id].nRefCount
  {
  }
}
