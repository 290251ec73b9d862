/** The address manager's state as a value: the redundant indexes, the two bucket
    tables and the counters, and what it means for them to agree. Hashes, groups and
    networks are parameters. */
module AddrManModel {
  const TRIED_BUCKETS := 256
  const NEW_BUCKETS := 1024
  const BUCKET_SIZE := 64
  const TRIED_BUCKETS_PER_GROUP := 8
  const NEW_BUCKETS_PER_SOURCE_GROUP := 64
  const NEW_BUCKETS_PER_ADDRESS := 8

  type Key = nat  // 0 is the null key
  type NetAddr = nat
  type Group = seq<nat>
  type Network = nat

  datatype Service = Service(ip: NetAddr, port: nat)
  datatype Address = Address(service: Service, time: int, services: bv64)
  datatype Slot = Slot(bucket: nat, pos: nat)
  type Table = map<Slot, int>

  /** Hash functions and the network-group manager. */
  datatype Env = Env(
    addressHash: (Key, Service) -> nat,
    triedHash: (Key, Group, nat) -> nat,
    sourceHash: (Key, Group, Group) -> nat,
    newHash: (Key, Group, nat) -> nat,
    positionHash: (Key, bool, nat, Service) -> nat,
    group: NetAddr -> Group,
    network: NetAddr -> Network,
    netClass: NetAddr -> Network,
    valid: NetAddr -> bool,
    special: NetAddr -> bool,
    asmapChecksum: nat)

  /** Where the secret key puts addresses. */
  datatype Placement = Placement(env: Env, key: Key) {
    function TriedBucket(a: Service): (b: nat)
      ensures b < TRIED_BUCKETS
    {
      env.triedHash(key, env.group(a.ip), env.addressHash(key, a) % TRIED_BUCKETS_PER_GROUP) % TRIED_BUCKETS
    }

    function NewBucket(a: Service, source: NetAddr): (b: nat)
      ensures b < NEW_BUCKETS
    {
      var from := env.group(source);
      env.newHash(key, from, env.sourceHash(key, env.group(a.ip), from) % NEW_BUCKETS_PER_SOURCE_GROUP) % NEW_BUCKETS
    }

    function Position(isNew: bool, bucket: nat, a: Service): (p: nat)
      ensures p < BUCKET_SIZE
    {
      env.positionHash(key, isNew, bucket, a) % BUCKET_SIZE
    }

    function TriedSlot(a: Service): Slot {
      Slot(TriedBucket(a), Position(false, TriedBucket(a), a))
    }

    function NewSlot(a: Service, bucket: nat): Slot {
      Slot(bucket, Position(true, bucket, a))
    }

    predicate IsValid(a: Service) { env.valid(a.ip) }

    predicate IsRoutable(a: Service) { env.valid(a.ip) && !env.special(a.ip) }

    function Network(a: Service): Network { env.network(a.ip) }
  }

  datatype AddrInfo = AddrInfo(
    addr: Service,
    nTime: int,
    nServices: bv64,
    lastTry: int,
    lastCountAttempt: int,
    source: NetAddr,
    lastSuccess: int,
    nAttempts: nat,
    nRefCount: int,
    fInTried: bool,
    nRandomPos: int)

  const MINUTE := 60
  const HOUR := 3600
  const DAY := 86400

  predicate IsTerrible(i: AddrInfo, now: int) {
    now - i.lastTry > MINUTE
    && (|| i.nTime > now + 10 * MINUTE
        || now - i.nTime > 30 * DAY
        || (i.lastSuccess == 0 && i.nAttempts >= 3)
        || (now - i.lastSuccess > 7 * DAY && i.nAttempts >= 10))
  }

  datatype Count = Count(inNew: int, inTried: int)

  function CountOf(counts: map<Network, Count>, net: Network): Count {
    if net in counts then counts[net] else Count(0, 0)
  }

  function Adjust(counts: map<Network, Count>, net: Network, dNew: int, dTried: int): map<Network, Count> {
    var c := CountOf(counts, net);
    counts[net := Count(c.inNew + dNew, c.inTried + dTried)]
  }

  datatype State = State(
    at: Placement,
    idCount: nat,
    info: map<int, AddrInfo>,
    addr: map<Service, int>,
    random: seq<int>,
    nTried: int,
    triedTable: Table,
    nNew: int,
    newTable: Table,
    lastGood: int,
    collisions: set<int>,
    counts: map<Network, Count>)

  /** A manager as it is constructed. */
  ghost predicate Empty(s: State) {
    && s.info == map[] && s.addr == map[] && s.random == [] && s.triedTable == map[] && s.newTable == map[]
    && s.counts == map[] && s.collisions == {}
  }

  // ---------- The invariant ----------

  /** vRandom and the stored positions are inverse to each other. */
  ghost predicate Shuffled(s: State) {
    && (forall id :: id in s.info ==> var i := s.info[id].nRandomPos; 0 <= i < |s.random| && s.random[i] == id)
    && (forall i :: 0 <= i < |s.random| ==> var id := s.random[i]; id in s.info && s.info[id].nRandomPos == i)
  }

  /** mapAddr and mapInfo are inverse to each other. */
  ghost predicate Addressed(s: State) {
    && (forall id :: id in s.info ==> var a := s.info[id].addr; a in s.addr && s.addr[a] == id)
    && (forall a :: a in s.addr ==> var id := s.addr[a]; id in s.info && s.info[id].addr == a)
  }

  /** The tried table holds exactly the tried entries, each in its own slot. */
  ghost predicate TriedPlaced(s: State) {
    && (forall k :: k in s.triedTable ==>
        var id := s.triedTable[k]; id in s.info && s.info[id].fInTried && k == s.at.TriedSlot(s.info[id].addr))
    && (forall id :: id in s.info && s.info[id].fInTried ==>
        var k := s.at.TriedSlot(s.info[id].addr); k in s.triedTable && s.triedTable[k] == id)
  }

  /** The new table holds untried entries at the positions their addresses demand. */
  ghost predicate NewPlaced(s: State) {
    forall k :: k in s.newTable ==>
      var id := s.newTable[k];
      id in s.info && !s.info[id].fInTried && k.bucket < NEW_BUCKETS && k == s.at.NewSlot(s.info[id].addr, k.bucket)
  }

  /** The new buckets whose slot for address `a` holds `id`. */
  ghost function BucketsOf(at: Placement, t: Table, a: Service, id: int): set<nat> {
    set b: nat | b < NEW_BUCKETS && at.NewSlot(a, b) in t && t[at.NewSlot(a, b)] == id
  }

  ghost predicate RefCounted(s: State) {
    forall id :: id in s.info ==> s.info[id].nRefCount == |BucketsOf(s.at, s.newTable, s.info[id].addr, id)|
  }

  /** Every entry outside `loose` is in one of the two tables. */
  ghost predicate Referenced(s: State, loose: set<int>) {
    forall id :: id in s.info && id !in loose ==> s.info[id].fInTried || s.info[id].nRefCount > 0
  }

  ghost predicate Sensible(s: State) {
    && (forall id :: id in s.info ==> 0 <= id < s.idCount && s.info[id].nRefCount <= NEW_BUCKETS_PER_ADDRESS
                                      && s.at.IsValid(s.info[id].addr))
    && (forall id :: id in s.collisions ==> 0 <= id < s.idCount)
    && s.at.key != 0
  }

  // How an entry is counted.
  datatype Kind = New(net: Network) | Tried(net: Network)

  function KindOf(at: Placement, i: AddrInfo): Kind {
    if i.fInTried then Tried(at.Network(i.addr)) else New(at.Network(i.addr))
  }

  /** How each entry is counted; entries in `limbo` are between the tables and are not. */
  ghost function Kinds(s: State, limbo: set<int>): map<int, Kind> {
    map id | id in s.info && id !in limbo :: KindOf(s.at, s.info[id])
  }

  ghost function NewIds(kinds: map<int, Kind>): set<int> {
    set id | id in kinds && kinds[id].New?
  }

  ghost function TriedIds(kinds: map<int, Kind>): set<int> {
    set id | id in kinds && kinds[id].Tried?
  }

  ghost function IdsOf(kinds: map<int, Kind>, k: Kind): set<int> {
    set id | id in kinds && kinds[id] == k
  }

  ghost predicate Tallies(kinds: map<int, Kind>, nNew: int, nTried: int, counts: map<Network, Count>) {
    && nNew == |NewIds(kinds)| && nTried == |TriedIds(kinds)|
    && forall net: Network :: CountOf(counts, net) == Count(|IdsOf(kinds, New(net))|, |IdsOf(kinds, Tried(net))|)
  }

  ghost predicate Counted(s: State, limbo: set<int>) {
    Tallies(Kinds(s, limbo), s.nNew, s.nTried, s.counts)
  }

  ghost predicate Structured(s: State, limbo: set<int>) {
    Shuffled(s) && Addressed(s) && TriedPlaced(s) && NewPlaced(s) && RefCounted(s) && Sensible(s) && Counted(s, limbo)
  }

  /** What holds between operations. */
  ghost predicate Inv(s: State) {
    Structured(s, {}) && Referenced(s, {})
  }

  /** A pending collision that is still known has an occupied target slot. */
  ghost predicate Pending(s: State) {
    forall id :: id in s.collisions && id in s.info ==> s.at.TriedSlot(s.info[id].addr) in s.triedTable
  }

  ghost predicate TimedEntry(i: AddrInfo) {
    i.lastTry >= 0 && i.lastSuccess >= 0 && (i.fInTried ==> i.lastSuccess != 0)
  }

  /** All entries but `id` have sensible times. */
  ghost predicate TimedBut(s: State, id: int) {
    forall j :: j in s.info && j != id ==> TimedEntry(s.info[j])
  }

  ghost predicate Timed(s: State) {
    forall id :: id in s.info ==> TimedEntry(s.info[id])
  }

  // ---------- Counting ----------

  function One(b: bool): int { if b then 1 else 0 }

  lemma {:induction false} IdsAfter(kinds: map<int, Kind>, x: int, k: Kind, j: Kind)
    requires x !in kinds
    ensures |IdsOf(kinds[x := k], j)| == |IdsOf(kinds, j)| + One(j == k)
  {
    assert IdsOf(kinds[x := k], j) == IdsOf(kinds, j) + if j == k then {x} else {};
  }

  lemma {:induction false} NewAfter(kinds: map<int, Kind>, x: int, k: Kind)
    requires x !in kinds
    ensures |NewIds(kinds[x := k])| == |NewIds(kinds)| + One(k.New?)
  {
    assert NewIds(kinds[x := k]) == NewIds(kinds) + if k.New? then {x} else {};
  }

  lemma {:induction false} TriedAfter(kinds: map<int, Kind>, x: int, k: Kind)
    requires x !in kinds
    ensures |TriedIds(kinds[x := k])| == |TriedIds(kinds)| + One(k.Tried?)
  {
    assert TriedIds(kinds[x := k]) == TriedIds(kinds) + if k.Tried? then {x} else {};
  }

  /** The counters are exact before an entry is counted exactly when they are after it,
      each adjusted by one in its own place. */
  lemma {:induction false} TallyOne(kinds: map<int, Kind>, x: int, k: Kind, nNew: int, nTried: int,
                                    counts: map<Network, Count>)
    requires x !in kinds
    ensures Tallies(kinds, nNew, nTried, counts)
      <==> Tallies(kinds[x := k], nNew + One(k.New?), nTried + One(k.Tried?), Adjust(counts, k.net, One(k.New?), One(k.Tried?)))
  {
    hide NewIds, TriedIds, IdsOf;
    NewAfter(kinds, x, k);
    TriedAfter(kinds, x, k);
    var after := Adjust(counts, k.net, One(k.New?), One(k.Tried?));
    forall net: Network
      ensures CountOf(counts, net) == Count(|IdsOf(kinds, New(net))|, |IdsOf(kinds, Tried(net))|)
        <==> CountOf(after, net) == Count(|IdsOf(kinds[x := k], New(net))|, |IdsOf(kinds[x := k], Tried(net))|)
    {
      IdsAfter(kinds, x, k, New(net));
      IdsAfter(kinds, x, k, Tried(net));
    }
  }

  lemma {:induction false} Counts(s: State, l: set<int>, t: State, m: set<int>, x: int, k: Kind)
    requires x !in Kinds(s, l) && Kinds(t, m) == Kinds(s, l)[x := k]
    requires t.nNew == s.nNew + One(k.New?) && t.nTried == s.nTried + One(k.Tried?)
    requires t.counts == Adjust(s.counts, k.net, One(k.New?), One(k.Tried?))
    ensures Counted(s, l) ==> Counted(t, m)
  {
    hide Tallies, Adjust;
    TallyOne(Kinds(s, l), x, k, s.nNew, s.nTried, s.counts);
  }

  lemma {:induction false} Uncounts(s: State, l: set<int>, t: State, m: set<int>, x: int, k: Kind)
    requires x !in Kinds(t, m) && Kinds(s, l) == Kinds(t, m)[x := k]
    requires t.nNew == s.nNew - One(k.New?) && t.nTried == s.nTried - One(k.Tried?)
    requires t.counts == Adjust(s.counts, k.net, -One(k.New?), -One(k.Tried?))
    ensures Counted(s, l) ==> Counted(t, m)
  {
    hide Tallies;
    TallyOne(Kinds(t, m), x, k, t.nNew, t.nTried, t.counts);
    AdjustBack(s.counts, k.net, One(k.New?), One(k.Tried?));
    TalliesSame(Kinds(s, l), s.nNew, s.nTried, s.counts,
                Adjust(t.counts, k.net, One(k.New?), One(k.Tried?)));
  }

  lemma {:induction false} AdjustBack(counts: map<Network, Count>, net: Network, dNew: int, dTried: int)
    ensures forall n: Network ::
      CountOf(Adjust(Adjust(counts, net, -dNew, -dTried), net, dNew, dTried), n) == CountOf(counts, n)
  {
  }

  lemma {:induction false} TalliesSame(kinds: map<int, Kind>, nNew: int, nTried: int,
                                       counts: map<Network, Count>, others: map<Network, Count>)
    requires forall n: Network :: CountOf(others, n) == CountOf(counts, n)
    ensures Tallies(kinds, nNew, nTried, counts) ==> Tallies(kinds, nNew, nTried, others)
  {
    hide NewIds, TriedIds, IdsOf, CountOf;
  }

  // ---------- References from the new table ----------

  /** Emptying a slot takes one reference from its occupant and nothing from anyone else. */
  lemma {:induction false} ClearedRefs(s: State, k: Slot, id: int)
    requires NewPlaced(s) && k in s.newTable && id in s.info
    ensures |BucketsOf(s.at, s.newTable - {k}, s.info[id].addr, id)|
      == |BucketsOf(s.at, s.newTable, s.info[id].addr, id)| - One(id == s.newTable[k])
  {
    hide Placement.Position;
    var a := s.info[id].addr;
    var was, now := BucketsOf(s.at, s.newTable, a, id), BucketsOf(s.at, s.newTable - {k}, a, id);
    if id == s.newTable[k] {
      assert k.bucket in was;
      assert now == was - {k.bucket};
    } else {
      assert now == was;
    }
  }

  /** Filling an empty slot at its own position gives one reference. */
  lemma {:induction false} FilledRefs(at: Placement, t: Table, a: Service, x: int, b: nat, c: Service, id: int)
    requires b < NEW_BUCKETS && at.NewSlot(a, b) !in t && (id == x ==> c == a)
    ensures |BucketsOf(at, t[at.NewSlot(a, b) := x], c, id)| == |BucketsOf(at, t, c, id)| + One(id == x)
  {
    hide Placement.Position;
    var u := t[at.NewSlot(a, b) := x];
    if id == x {
      assert BucketsOf(at, u, c, id) == BucketsOf(at, t, c, id) + {b};
    } else {
      assert BucketsOf(at, u, c, id) == BucketsOf(at, t, c, id);
    }
  }

  lemma {:induction false} NoRefsNoSlots(s: State, id: int, k: Slot)
    requires NewPlaced(s) && RefCounted(s) && id in s.info && s.info[id].nRefCount == 0
    requires k in s.newTable
    ensures s.newTable[k] != id
  {
    var a := s.info[id].addr;
    assert s.newTable[k] == id ==> k.bucket in BucketsOf(s.at, s.newTable, a, id);
  }

  // ---------- States that differ only in shuffling ----------

  /** Equal apart from the place in vRandom. */
  ghost predicate SameBut(i: AddrInfo, j: AddrInfo) {
    && i.addr == j.addr && i.nTime == j.nTime && i.nServices == j.nServices && i.lastTry == j.lastTry
    && i.lastCountAttempt == j.lastCountAttempt && i.source == j.source && i.lastSuccess == j.lastSuccess
    && i.nAttempts == j.nAttempts && i.nRefCount == j.nRefCount && i.fInTried == j.fInTried
  }

  /** Same entries and tables; only the random order differs. */
  ghost predicate Reshuffled(s: State, t: State) {
    && t.info.Keys == s.info.Keys
    && (forall id :: id in s.info ==> SameBut(t.info[id], s.info[id]))
    && t.at == s.at && t.idCount == s.idCount && t.addr == s.addr && t.nTried == s.nTried && t.triedTable == s.triedTable
    && t.nNew == s.nNew && t.newTable == s.newTable && t.lastGood == s.lastGood && t.collisions == s.collisions
    && t.counts == s.counts
  }

  lemma {:induction false} ReshuffledTables(s: State, t: State)
    requires Reshuffled(s, t)
    ensures Addressed(s) ==> Addressed(t)
    ensures TriedPlaced(s) ==> TriedPlaced(t)
    ensures NewPlaced(s) ==> NewPlaced(t)
    ensures Pending(s) ==> Pending(t)
  {
    hide Placement.TriedSlot, Placement.NewSlot;
  }

  lemma {:induction false} KindsSame(s: State, t: State, limbo: set<int>)
    requires t.at == s.at && t.info.Keys == s.info.Keys
    requires forall id :: id in s.info ==> KindOf(s.at, t.info[id]) == KindOf(s.at, s.info[id])
    ensures Kinds(t, limbo) == Kinds(s, limbo)
  {
    var l, r := Kinds(t, limbo), Kinds(s, limbo);
    forall id: int
      ensures id in l <==> id in r
      ensures id in l ==> l[id] == r[id]
    {
      assert id in t.info.Keys <==> id in s.info.Keys;
    }
    assert l.Keys == r.Keys;
  }

  lemma {:induction false} ReshuffledEntries(s: State, t: State, limbo: set<int>, loose: set<int>)
    requires Reshuffled(s, t)
    ensures RefCounted(s) ==> RefCounted(t)
    ensures Sensible(s) ==> Sensible(t)
    ensures Referenced(s, loose) ==> Referenced(t, loose)
    ensures Timed(s) ==> Timed(t)
    ensures Counted(s, limbo) ==> Counted(t, limbo)
  {
    hide BucketsOf, Tallies;
    KindsSame(s, t, limbo);
  }

  /** States that differ only in counters and bookkeeping. */
  ghost predicate SameTables(s: State, t: State) {
    && t.at == s.at && t.info == s.info && t.addr == s.addr && t.random == s.random
    && t.triedTable == s.triedTable && t.newTable == s.newTable
  }

  lemma {:induction false} SameTablesKeep(s: State, t: State)
    requires SameTables(s, t)
    ensures Shuffled(s) ==> Shuffled(t)
    ensures Addressed(s) ==> Addressed(t)
    ensures TriedPlaced(s) ==> TriedPlaced(t)
    ensures NewPlaced(s) ==> NewPlaced(t)
    ensures RefCounted(s) ==> RefCounted(t)
  {
    hide BucketsOf, Placement.TriedSlot, Placement.NewSlot;
  }

  function Swap(s: State, i: nat, j: nat): State
    requires i < |s.random| && j < |s.random| && s.random[i] in s.info && s.random[j] in s.info
  {
    var a, b := s.random[i], s.random[j];
    var moved := s.info[a := s.info[a].(nRandomPos := j)];
    s.(info := moved[b := moved[b].(nRandomPos := i)], random := s.random[i := b][j := a])
  }

  lemma {:induction false} SwapShuffles(s: State, i: nat, j: nat)
    requires Shuffled(s) && i < |s.random| && j < |s.random| && i != j
    ensures Shuffled(Swap(s, i, j))
  {
    var a, b := s.random[i], s.random[j];
    assert a != b;
  }

  lemma {:induction false} SwapKeeps(s: State, i: nat, j: nat)
    requires Shuffled(s) && i < |s.random| && j < |s.random| && i != j
    ensures Shuffled(Swap(s, i, j)) && Reshuffled(s, Swap(s, i, j))
  {
    SwapShuffles(s, i, j);
    var a, b := s.random[i], s.random[j];
    assert a in s.info && b in s.info && a != b;
    hide Shuffled;
  }
}
