/** The address manager with its fields updated in place. Every public operation keeps
    the whole invariant, and the assertions in the code are proved where they stand. */
module AddrMan {
  import opened Prelude
  import opened AddrManModel
  import opened AddrManSteps
  import opened AddrManMoves

  /** The occupied slots of a bucket table; -1 marks an empty one. */
  ghost function TableOf(vv: array2<int>): Table
    reads vv
  {
    map b: nat, p: nat | b < vv.Length0 && p < vv.Length1 && vv[b, p] != -1 :: Slot(b, p) := vv[b, p]
  }

  /** How many steps after `start` the wrapping scan reaches bucket `b`. */
  function Offset(start: nat, b: nat): nat { (b + NEW_BUCKETS - start % NEW_BUCKETS) % NEW_BUCKETS }

  class AddrManImpl {
    const env: Env
    var nKey: Key
    var nIdCount: nat
    var mapInfo: map<int, AddrInfo>
    var mapAddr: map<Service, int>
    var vRandom: seq<int>
    var nTried: int
    const vvTried: array2<int>
    var nNew: int
    const vvNew: array2<int>
    var lastGood: int
    var triedCollisions: set<int>
    var networkCounts: map<Network, Count>

    ghost predicate Shaped() {
      && vvNew != vvTried
      && vvTried.Length0 == TRIED_BUCKETS && vvTried.Length1 == BUCKET_SIZE
      && vvNew.Length0 == NEW_BUCKETS && vvNew.Length1 == BUCKET_SIZE
    }

    function At(): Placement
      reads this
    {
      Placement(env, nKey)
    }

    /** The whole state as a value. */
    ghost function St(): State
      reads this, vvTried, vvNew
    {
      State(At(), nIdCount, mapInfo, mapAddr, vRandom, nTried, TableOf(vvTried), nNew, TableOf(vvNew), lastGood,
            triedCollisions, networkCounts)
    }

    constructor (env: Env, key: Key)
      requires key != 0
      ensures Shaped() && fresh(vvTried) && fresh(vvNew) && this.env == env
      ensures Inv(St()) && Timed(St()) && Pending(St()) && Empty(St())
    {
      this.env := env;
      nKey := key;
      nIdCount := 0;
      mapInfo := map[];
      mapAddr := map[];
      vRandom := [];
      nTried, nNew := 0, 0;
      vvTried := new int[TRIED_BUCKETS, BUCKET_SIZE]((b, p) => -1);
      vvNew := new int[NEW_BUCKETS, BUCKET_SIZE]((b, p) => -1);
      lastGood := 1;
      triedCollisions := {};
      networkCounts := map[];
      new;
      assert TableOf(vvTried) == map[] && TableOf(vvNew) == map[];
      EmptyCounted(St());
    }

    // ---------- Writes to the tables ----------

    method WriteNew(b: nat, p: nat, id: int)
      requires Shaped() && b < NEW_BUCKETS && p < BUCKET_SIZE
      modifies vvNew
      ensures TableOf(vvNew) == if id == -1 then old(TableOf(vvNew)) - {Slot(b, p)} else old(TableOf(vvNew))[Slot(b, p) := id]
    {
      vvNew[b, p] := id;
    }

    method WriteTried(b: nat, p: nat, id: int)
      requires Shaped() && b < TRIED_BUCKETS && p < BUCKET_SIZE
      modifies vvTried
      ensures TableOf(vvTried) == if id == -1 then old(TableOf(vvTried)) - {Slot(b, p)} else old(TableOf(vvTried))[Slot(b, p) := id]
    {
      vvTried[b, p] := id;
    }

    // ---------- Private steps ----------

    method Create(addr: Address, source: NetAddr) returns (nId: int)
      requires Shaped()
      modifies this
      ensures nId == old(nIdCount) && St() == Created(old(St()), addr, source)
    {
      hide Adjust, FreshEntry;
      nId := nIdCount;
      nIdCount, mapInfo := nIdCount + 1, mapInfo[nId := FreshEntry(addr, source, |vRandom|)];
      mapAddr, vRandom := mapAddr[addr.service := nId], vRandom + [nId];
      nNew, networkCounts := nNew + 1, Adjust(networkCounts, At().Network(addr.service), 1, 0);
    }

    method SwapRandom(pos1: int, pos2: int)
      requires Shaped() && Shuffled(St())
      requires pos1 == pos2 || (0 <= pos1 < |vRandom| && 0 <= pos2 < |vRandom|)
      modifies this
      ensures St() == if pos1 == pos2 then old(St()) else Swap(old(St()), pos1, pos2)
    {
      if pos1 == pos2 {
        return;
      }
      var id1, id2 := vRandom[pos1], vRandom[pos2];
      assert id1 in mapInfo && id2 in mapInfo && id1 != id2;
      mapInfo := mapInfo[id1 := mapInfo[id1].(nRandomPos := pos2)];
      mapInfo := mapInfo[id2 := mapInfo[id2].(nRandomPos := pos1)];
      vRandom := vRandom[pos1 := id2][pos2 := id1];
    }

    method Delete(nId: int)
      requires Shaped() && Shuffled(St())
      requires nId in mapInfo && !mapInfo[nId].fInTried && mapInfo[nId].nRefCount == 0
      modifies this
      ensures St() == Deleted(old(St()), nId)
    {
      hide Adjust, Dropped;
      ghost var s := St();
      var pos := mapInfo[nId].nRandomPos;
      if pos != |vRandom| - 1 { SwappedLast(s, nId); }
      SwapRandom(pos, |vRandom| - 1);
      DropLast(nId);
    }

    method DropLast(nId: int)
      requires Shaped() && nId in mapInfo && |vRandom| > 0
      modifies this
      ensures St() == Dropped(old(St()), nId)
    {
      hide Adjust;
      var a := mapInfo[nId].addr;
      networkCounts := Adjust(networkCounts, At().Network(a), -1, 0);
      vRandom := vRandom[..|vRandom| - 1];
      mapAddr := mapAddr - {a};
      mapInfo := mapInfo - {nId};
      nNew := nNew - 1;
    }

    /** Empties an occupied slot and lowers its occupant's reference count. */
    method Unreference(b: nat, p: nat) returns (id: int)
      requires Shaped() && b < NEW_BUCKETS && p < BUCKET_SIZE && vvNew[b, p] != -1 && vvNew[b, p] in mapInfo
      modifies this, vvNew
      ensures id == old(vvNew[b, p]) && Slot(b, p) in old(TableOf(vvNew)) && old(TableOf(vvNew))[Slot(b, p)] == id
      ensures St() == Unreferenced(old(St()), Slot(b, p))
    {
      id := vvNew[b, p];
      mapInfo := mapInfo[id := mapInfo[id].(nRefCount := mapInfo[id].nRefCount - 1)];
      WriteNew(b, p, -1);
    }

    method ClearNew(b: nat, p: nat)
      requires Shaped() && b < NEW_BUCKETS && p < BUCKET_SIZE
      requires Shuffled(St()) && NewPlaced(St()) && RefCounted(St())
      modifies this, vvNew
      ensures St() == ClearedNew(old(St()), Slot(b, p))
    {
      if vvNew[b, p] != -1 {
        OccupantCounted(St(), Slot(b, p));
        assert mapInfo[vvNew[b, p]].nRefCount > 0;
        var nIdDelete := Unreference(b, p);
        if mapInfo[nIdDelete].nRefCount == 0 {
          Delete(nIdDelete);
        }
      }
    }

    method StripBucket(nId: int, a: Service, bucket: nat, ghost was: State, ghost start: nat, ghost n: nat)
      requires Shaped() && Structured(St(), {}) && Structured(was, {}) && Stripping(was, St(), nId, start, n)
      requires nId >= 0 && nId in was.info && a == was.info[nId].addr && start < NEW_BUCKETS && n < NEW_BUCKETS
      requires bucket == (start + n) % NEW_BUCKETS
      modifies this, vvNew
      ensures Structured(St(), {}) && Stripping(was, St(), nId, start, n + 1) && nId in mapInfo
    {
      hide Placement.NewBucket, Placement.Position, Shuffled, Addressed, TriedPlaced, NewPlaced, RefCounted, Sensible,
           Counted, Offset;
      ghost var s := St();
      var pos := At().Position(true, bucket, a);
      StrippingStep(was, s, nId, start, n, bucket);
      if vvNew[bucket, pos] == nId {
        UnreferencedKeeps(s, {}, Slot(bucket, pos));
        var _ := Unreference(bucket, pos);
      }
    }

    /** Removes every reference to `nId` from the new table. */
    method StripFromNew(nId: int)
      requires Shaped() && Structured(St(), {}) && nId in mapInfo && !mapInfo[nId].fInTried
      requires mapInfo[nId].nRefCount > 0
      modifies this, vvNew
      ensures Structured(St(), {}) && St() == Stripped(old(St()), nId)
    {
      hide Placement.NewBucket, Placement.Position, Structured, Stripped, Stripping, Offset;
      KnownId(St(), {}, nId);
      ghost var was := St();
      var a := mapInfo[nId].addr;
      var start := At().NewBucket(a, mapInfo[nId].source);
      var n := 0;
      StrippingStarts(was, nId, start);
      while n < NEW_BUCKETS && mapInfo[nId].nRefCount != 0
        invariant n <= NEW_BUCKETS && nId in mapInfo
        invariant Structured(St(), {}) && Stripping(was, St(), nId, start, n)
      {
        StripBucket(nId, a, (start + n) % NEW_BUCKETS, was, start, n);
        n := n + 1;
      }
      StrippingEnds(was, St(), nId, start, n);
    }

    /** Moves the occupant of a tried slot back to the new table. */
    method Demote(b: nat, p: nat, ghost limbo: set<int>)
      requires Shaped() && b < TRIED_BUCKETS && p < BUCKET_SIZE && vvTried[b, p] != -1
      requires Structured(St(), limbo) && Referenced(St(), limbo)
      requires forall j :: j in limbo ==> j in mapInfo && mapInfo[j].nRefCount == 0 && !mapInfo[j].fInTried
      modifies this, vvNew, vvTried
      ensures Structured(St(), limbo) && Referenced(St(), limbo) && Demoted(old(St()), St(), Slot(b, p))
    {
      hide Placement.NewBucket, Placement.Position, Referenced, Demoted, Adjust, ClearedNew;
      hide Shuffled, Addressed, TriedPlaced, NewPlaced, RefCounted, Sensible, Counted;
      var nIdEvict := vvTried[b, p];
      ghost var s := St();
      ghost var t, u, v := DemotedKeeps(s, limbo, Slot(b, p), nIdEvict);
      KnownId(s, limbo, nIdEvict);
      LeaveTried(b, p);
      assert St() == t;
      var nUBucket := At().NewBucket(mapInfo[nIdEvict].addr, mapInfo[nIdEvict].source);
      var nUBucketPos := At().Position(true, nUBucket, mapInfo[nIdEvict].addr);
      ClearNew(nUBucket, nUBucketPos);
      assert St() == u && vvNew[nUBucket, nUBucketPos] == -1;
      EnterNew(nIdEvict, nUBucket, nUBucketPos);
      assert St() == v;
    }

    method LeaveTried(b: nat, p: nat)
      requires Shaped() && b < TRIED_BUCKETS && p < BUCKET_SIZE && vvTried[b, p] != -1 && vvTried[b, p] in mapInfo
      modifies this, vvTried
      ensures Slot(b, p) in old(TableOf(vvTried)) && old(TableOf(vvTried))[Slot(b, p)] == old(vvTried[b, p])
      ensures St() == LeftTried(old(St()), Slot(b, p))
    {
      hide Adjust;
      var id := vvTried[b, p];
      mapInfo := mapInfo[id := mapInfo[id].(fInTried := false)];
      WriteTried(b, p, -1);
      nTried := nTried - 1;
      networkCounts := Adjust(networkCounts, At().Network(mapInfo[id].addr), 0, -1);
    }

    method EnterNew(id: int, b: nat, p: nat)
      requires Shaped() && id in mapInfo && id != -1 && mapInfo[id].nRefCount == 0
      requires b < NEW_BUCKETS && p < BUCKET_SIZE && Slot(b, p) == At().NewSlot(mapInfo[id].addr, b)
      modifies this, vvNew
      ensures St() == EnteredNew(ReferencedAt(old(St()), id, b), id)
    {
      hide Adjust, Placement.Position;
      mapInfo := mapInfo[id := mapInfo[id].(nRefCount := 1)];
      WriteNew(b, p, id);
      nNew := nNew + 1;
      networkCounts := Adjust(networkCounts, At().Network(mapInfo[id].addr), 1, 0);
    }

    method EnterTried(id: int, b: nat, p: nat)
      requires Shaped() && id in mapInfo && id != -1
      requires b < TRIED_BUCKETS && p < BUCKET_SIZE && Slot(b, p) == At().TriedSlot(mapInfo[id].addr)
      modifies this, vvTried
      ensures St() == EnteredTried(old(St()), id)
    {
      hide Adjust, Placement.TriedSlot;
      WriteTried(b, p, id);
      nTried := nTried + 1;
      mapInfo := mapInfo[id := mapInfo[id].(fInTried := true)];
      networkCounts := Adjust(networkCounts, At().Network(mapInfo[id].addr), 0, 1);
    }

    method LeaveNew(id: int)
      requires Shaped() && id in mapInfo
      modifies this
      ensures St() == LeftNew(old(St()), id)
    {
      nNew := nNew - 1;
      networkCounts := Adjust(networkCounts, At().Network(mapInfo[id].addr), -1, 0);
    }

    method MakeTried(nId: int)
      requires Shaped() && Inv(St()) && nId in mapInfo && !mapInfo[nId].fInTried
      modifies this, vvNew, vvTried
      ensures Inv(St()) && Promoted(old(St()), St(), nId)
    {
      hide Placement.TriedBucket, Placement.Position, Promoted, Demoted, Structured, Stripped, EnteredTried;
      ghost var s := St();
      KnownId(s, {}, nId);
      StripFromNew(nId);
      LeftNewReady(s, nId);
      LeaveNew(nId);
      ghost var t := St();
      assert mapInfo[nId].nRefCount == 0;
      var nKBucket := At().TriedBucket(mapInfo[nId].addr);
      var nKBucketPos := At().Position(false, nKBucket, mapInfo[nId].addr);
      ghost var k := Slot(nKBucket, nKBucketPos);
      if vvTried[nKBucket, nKBucketPos] != -1 {
        Demote(nKBucket, nKBucketPos, {nId});
      }
      PromotionDone(s, t, St(), nId, k);
      assert vvTried[nKBucket, nKBucketPos] == -1;
      EnterTried(nId, nKBucket, nKBucketPos);
    }

    // ---------- Adding ----------

    method Reference(id: int, b: nat, p: nat)
      requires Shaped() && id in mapInfo && id != -1
      requires b < NEW_BUCKETS && p < BUCKET_SIZE && Slot(b, p) == At().NewSlot(mapInfo[id].addr, b)
      modifies this, vvNew
      ensures St() == ReferencedAt(old(St()), id, b)
    {
      hide Placement.Position;
      mapInfo := mapInfo[id := mapInfo[id].(nRefCount := mapInfo[id].nRefCount + 1)];
      WriteNew(b, p, id);
    }

    method InsertNew(nId: int, b: nat, p: nat)
      requires Shaped() && Structured(St(), {}) && Referenced(St(), {nId})
      requires nId in mapInfo && !mapInfo[nId].fInTried && mapInfo[nId].nRefCount < NEW_BUCKETS_PER_ADDRESS
      requires b < NEW_BUCKETS && p < BUCKET_SIZE && Slot(b, p) == At().NewSlot(mapInfo[nId].addr, b)
      requires vvNew[b, p] != nId
      modifies this, vvNew
      ensures Inv(St()) && Inserting(old(St()), St(), nId, Slot(b, p), true)
    {
      hide Placement.NewSlot, Shuffled, Addressed, TriedPlaced, NewPlaced, RefCounted, Sensible, Counted;
      hide ClearedNew, ReferencedAt, Inserting;
      KnownId(St(), {}, nId);
      ghost var u, v := InsertedKeeps(St(), nId, b, Slot(b, p));
      ClearNew(b, p);
      Reference(nId, b, p);
    }

    method PlaceNew(nId: int, source: NetAddr, now: int) returns (fInsert: bool)
      requires Shaped() && Structured(St(), {}) && Referenced(St(), {nId})
      requires nId in mapInfo && !mapInfo[nId].fInTried && mapInfo[nId].nRefCount < NEW_BUCKETS_PER_ADDRESS
      modifies this, vvNew
      ensures Inv(St())
      ensures var s := old(St()); var k := s.at.NewSlot(s.info[nId].addr, s.at.NewBucket(s.info[nId].addr, source));
        Inserting(s, St(), nId, k, fInsert) && (fInsert <==> Insertable(s, nId, k, now))
    {
      hide Placement.NewBucket, Placement.Position, Shuffled, Addressed, TriedPlaced, RefCounted, Sensible, Counted;
      hide Inserting, IsTerrible;
      ghost var s := St();
      KnownId(s, {}, nId);
      var nUBucket := At().NewBucket(mapInfo[nId].addr, source);
      var nUBucketPos := At().Position(true, nUBucket, mapInfo[nId].addr);
      ghost var k := Slot(nUBucket, nUBucketPos);
      fInsert := vvNew[nUBucket, nUBucketPos] == -1;
      if vvNew[nUBucket, nUBucketPos] != nId {
        if !fInsert {
          var existing := vvNew[nUBucket, nUBucketPos];
          assert TableOf(vvNew)[k] == existing;
          if IsTerrible(mapInfo[existing], now) || (mapInfo[existing].nRefCount > 1 && mapInfo[nId].nRefCount == 0) {
            fInsert := true;
          }
        }
        if fInsert {
          InsertNew(nId, nUBucket, nUBucketPos);
        } else if mapInfo[nId].nRefCount == 0 {
          RejectedKeeps(s, nId, k);
          Delete(nId);
        } else {
          LeftAloneKeeps(s, nId, k);
        }
      } else {
        OccupantCounted(s, k);
        LeftAloneKeeps(s, nId, k);
      }
    }

    method Find(addr: Service) returns (found: bool, nId: int)
      requires Addressed(St())
      ensures found <==> addr in mapAddr
      ensures found ==> nId in mapInfo && mapInfo[nId].addr == addr && mapAddr[addr] == nId
    {
      found, nId := false, -1;
      if addr in mapAddr {
        nId := mapAddr[addr];
        found := nId in mapInfo;
      }
    }

    /** Replaces the statistics of an entry. */
    method SetInfo(nId: int, i: AddrInfo)
      requires Shaped() && Inv(St()) && nId in mapInfo && SamePlace(i, mapInfo[nId]) && i.source == mapInfo[nId].source
      modifies this
      ensures Inv(St()) && St() == old(St()).(info := old(mapInfo)[nId := i])
      ensures Later(old(St()), St()) && (old(Pending(St())) ==> Pending(St()))
      ensures old(Timed(St())) ==> (Timed(St()) <==> TimedEntry(i))
    {
      hide Structured, Later, Pending, Timed, TimedEntry;
      UpdatedLater(St(), nId, i);
      UpdatedKeeps(St(), {}, {}, nId, i);
      mapInfo := mapInfo[nId := i];
    }

    /** Whether an entry with this many references passes the stochastic test for one more. */
    method Draw(nRefCount: nat) returns (passed: bool)
      ensures nRefCount == 0 ==> passed
    {
      var nFactor := 1;
      for n := 0 to nRefCount
        invariant nFactor >= 1 && (n == 0 ==> nFactor == 1)
      {
        nFactor := nFactor * 2;
      }
      var draw: int :| 0 <= draw < nFactor;
      passed := !(nFactor > 1 && draw != 0);
    }

    method AddKnown(nId: int, addr: Address, source: NetAddr, timePenalty: int, now: int) returns (inserted: bool)
      requires Shaped() && Inv(St()) && nId in mapInfo && mapInfo[nId].addr == addr.service
      modifies this, vvNew
      ensures Inv(St()) && Added(old(St()), St(), addr.service, source, inserted)
    {
      hide Structured, Inserting, Added, Placement.NewBucket, Placement.NewSlot, Insertable, Refreshed, Known,
           SamePlace;
      hide Referenced;
      ghost var s := St();
      KnownId(s, {}, nId);
      RefreshedKnown(mapInfo[nId], addr, timePenalty, now);
      var i := Refreshed(mapInfo[nId], addr, timePenalty, now);
      SetInfo(nId, i);
      ghost var t := St();
      inserted := false;
      if addr.time <= i.nTime || i.fInTried || i.nRefCount == NEW_BUCKETS_PER_ADDRESS {
        AddedNothing(s, t, addr.service, source, nId, i);
        return;
      }
      var passed := Draw(i.nRefCount);
      if !passed {
        AddedNothing(s, t, addr.service, source, nId, i);
        return;
      }
      ReadyToPlace(s, t, nId, i);
      inserted := PlaceNew(nId, source, now);
      StructuredAddressed(St());
      AddedKnown(s, t, St(), addr.service, source, nId, i, inserted);
    }

    method Note(addr: Address, source: NetAddr, timePenalty: int) returns (nId: int)
      requires Shaped()
      modifies this
      ensures nId == old(nIdCount) && St() == Noted(old(St()), addr, source, timePenalty)
    {
      hide Adjust;
      nId := Create(addr, source);
      mapInfo := mapInfo[nId := mapInfo[nId].(nTime := Max(0, mapInfo[nId].nTime - timePenalty))];
    }

    method AddUnknown(addr: Address, source: NetAddr, timePenalty: int, now: int) returns (inserted: bool)
      requires Shaped() && Inv(St()) && addr.service !in mapAddr && At().IsRoutable(addr.service)
      modifies this, vvNew
      ensures Inv(St()) && Added(old(St()), St(), addr.service, source, inserted)
      ensures var s := old(St());
        inserted <==> Replaceable(s, s.at.NewSlot(addr.service, s.at.NewBucket(addr.service, source)), now)
    {
      hide Structured, Inserting, Added, Placement.NewBucket, Placement.NewSlot, Insertable, Replaceable, Referenced,
           Adjust;
      hide Noted;
      ghost var s := St();
      StructuredAddressed(s);
      KnownIds(s);
      NotedKeeps(s, addr, source, timePenalty);
      NotedEffect(s, addr, source, timePenalty);
      var nId := Note(addr, source, timePenalty);
      ghost var t := St();
      inserted := PlaceNew(nId, source, now);
      StructuredAddressed(St());
      AddedUnknown(s, t, St(), addr.service, source, t.info[nId], inserted);
      InsertableNoted(s, t, nId, s.at.NewSlot(addr.service, s.at.NewBucket(addr.service, source)), now);
    }

    method AddSingle(addr: Address, source: NetAddr, timePenalty: int, now: int) returns (inserted: bool)
      requires Shaped() && Inv(St())
      modifies this, vvNew
      ensures Inv(St()) && Added(old(St()), St(), addr.service, source, inserted)
      ensures !At().IsRoutable(addr.service) ==> St() == old(St()) && !inserted
      ensures At().IsRoutable(addr.service) && addr.service !in old(mapAddr) ==>
        var s := old(St());
        inserted <==> Replaceable(s, s.at.NewSlot(addr.service, s.at.NewBucket(addr.service, source)), now)
    {
      hide Structured, Added, Placement.NewBucket, Placement.NewSlot, Replaceable, Referenced;
      if !At().IsRoutable(addr.service) {
        AddedUnroutable(St(), addr.service, source);
        return false;
      }
      StructuredAddressed(St());
      var found, nId := Find(addr.service);
      var penalty := if addr.service.ip == source then 0 else timePenalty;
      if found {
        inserted := AddKnown(nId, addr, source, penalty, now);
      } else {
        inserted := AddUnknown(addr, source, penalty, now);
      }
    }

    method Add(vAddr: seq<Address>, source: NetAddr, timePenalty: int, now: int) returns (any: bool)
      requires Shaped() && Inv(St())
      modifies this, vvNew
      ensures Inv(St()) && Later(old(St()), St()) && TableOf(vvTried) == old(TableOf(vvTried))
      ensures old(Timed(St())) ==> Timed(St())
      ensures old(Pending(St())) ==> Pending(St())
    {
      hide Structured, Added, Referenced, Timed, Pending, Later;
      any := false;
      LaterReflexive(St());
      for i := 0 to |vAddr|
        invariant Inv(St()) && Later(old(St()), St()) && TableOf(vvTried) == old(TableOf(vvTried))
        invariant old(Timed(St())) ==> Timed(St())
        invariant old(Pending(St())) ==> Pending(St())
      {
        ghost var s := St();
        StructuredAddressed(s);
        StructuredAddressed(old(St()));
        var inserted := AddSingle(vAddr[i], source, timePenalty, now);
        any := any || inserted;
        AddedLater(s, St(), vAddr[i].service, source, inserted);
        LaterTransitive(old(St()), s, St());
      }
    }

    // ---------- Good ----------

    method RecordSuccess(nId: int, time: int)
      requires Shaped() && nId in mapInfo && lastGood == time
      modifies this
      ensures St() == Succeeded(old(St()), nId, time)
    {
      mapInfo := mapInfo[nId := mapInfo[nId].(lastSuccess := time, lastTry := time, nAttempts := 0)];
    }

    /** Promotes an entry, or notes the collision when that would evict another untested. */
    method TryPromote(nId: int, testBeforeEvict: bool) returns (moved: bool)
      requires Shaped() && Inv(St()) && nId in mapInfo && !mapInfo[nId].fInTried
      modifies this, vvNew, vvTried
      ensures Inv(St()) && PromotionEffect(old(St()), St(), nId, testBeforeEvict, moved)
    {
      hide Structured, Referenced, Promoted, Placement.TriedBucket, Placement.Position;
      ghost var s := St();
      var b := At().TriedBucket(mapInfo[nId].addr);
      var p := At().Position(false, b, mapInfo[nId].addr);
      if testBeforeEvict && vvTried[b, p] != -1 {
        if |triedCollisions| < TRIED_COLLISION_SIZE {
          BookkeepingKeeps(s, lastGood, triedCollisions + {nId});
          triedCollisions := triedCollisions + {nId};
        }
        return false;
      }
      MakeTried(nId);
      return true;
    }

    method Good_(addr: Service, testBeforeEvict: bool, time: int) returns (moved: bool)
      requires Shaped() && Inv(St())
      modifies this, vvNew, vvTried
      ensures Inv(St())
      ensures addr !in old(mapAddr) ==> !moved && St() == old(St()).(lastGood := time)
      ensures addr in old(mapAddr) ==>
        && old(mapAddr)[addr] in old(mapInfo)
        && GoodEffect(old(St()), St(), old(mapAddr)[addr], testBeforeEvict, time, moved)
    {
      hide Structured, Referenced, Promoted, PromotionEffect, Placement.TriedSlot;
      ghost var s := St();
      StructuredAddressed(s);
      BookkeepingKeeps(s, time, s.collisions);
      lastGood := time;
      var found, nId := Find(addr);
      if !found {
        return false;
      }
      SucceededKeeps(s, nId, time);
      RecordSuccess(nId, time);
      ghost var t := St();
      assert t == Succeeded(s, nId, time);
      if mapInfo[nId].fInTried {
        return false;
      }
      NewIsReferenced(t, nId);
      assert mapInfo[nId].nRefCount > 0;
      moved := TryPromote(nId, testBeforeEvict);
    }

    method Good(addr: Service, time: int) returns (moved: bool)
      requires Shaped() && Inv(St())
      modifies this, vvNew, vvTried
      ensures Inv(St()) && Later(old(St()), St())
      ensures moved ==> addr in mapAddr && mapAddr[addr] in mapInfo && mapInfo[mapAddr[addr]].fInTried
      ensures addr !in old(mapAddr) ==> (Timed(St()) <==> old(Timed(St())))
      ensures addr in old(mapAddr) ==> addr in mapAddr && mapAddr[addr] == old(mapAddr)[addr]
      ensures addr in old(mapAddr) ==> (TimedBut(St(), mapAddr[addr]) <==> old(TimedBut(St(), mapAddr[addr])))
      ensures addr in old(mapAddr) ==> (Timed(St()) <==>
        old(TimedBut(St(), mapAddr[addr])) && (time > 0 || (time == 0 && old(StaysUntried(St(), mapAddr[addr])))))
      ensures old(Pending(St())) ==> Pending(St())
    {
      hide Structured, Referenced, GoodEffect, Timed, TimedBut, StaysUntried, Pending, Later, TimedEntry;
      ghost var s := St();
      StructuredAddressed(s);
      moved := Good_(addr, true, time);
      StructuredAddressed(St());
      if addr in s.addr {
        GoodConsequences(s, St(), s.addr[addr], true, time, moved);
        GoodTimed(s, St(), s.addr[addr], time, moved);
        StillAddressed(s, St(), s.addr[addr]);
      } else {
        LastGoodLater(s, time);
      }
    }

    // ---------- Statistics ----------

    method Attempt(addr: Service, fCountFailure: bool, time: int)
      requires Shaped() && Inv(St())
      modifies this
      ensures Inv(St()) && Later(old(St()), St()) && mapAddr == old(mapAddr)
      ensures addr in mapAddr ==> mapAddr[addr] in old(mapInfo) && St() == old(St()).(info :=
        old(mapInfo)[mapAddr[addr] := Attempted(old(mapInfo)[mapAddr[addr]], fCountFailure, time, lastGood)])
      ensures addr !in mapAddr ==> St() == old(St())
      ensures old(Timed(St())) ==> (Timed(St()) <==> addr !in mapAddr || time >= 0)
      ensures old(Pending(St())) ==> Pending(St())
    {
      hide Structured, Referenced, Later, Pending;
      StructuredAddressed(St());
      LaterReflexive(St());
      var found, nId := Find(addr);
      if found {
        SetInfo(nId, Attempted(mapInfo[nId], fCountFailure, time, lastGood));
      }
    }

    method Connected(addr: Service, time: int)
      requires Shaped() && Inv(St())
      modifies this
      ensures Inv(St()) && Later(old(St()), St()) && mapAddr == old(mapAddr)
      ensures addr in mapAddr ==> mapAddr[addr] in old(mapInfo) && St() == old(St()).(info :=
        old(mapInfo)[mapAddr[addr] := SeenAt(old(mapInfo)[mapAddr[addr]], time)])
      ensures addr !in mapAddr ==> St() == old(St())
      ensures old(Timed(St())) ==> Timed(St())
      ensures old(Pending(St())) ==> Pending(St())
    {
      hide Structured, Referenced, Later, Pending;
      StructuredAddressed(St());
      LaterReflexive(St());
      var found, nId := Find(addr);
      if found {
        SetInfo(nId, SeenAt(mapInfo[nId], time));
      }
    }

    method SetServices(addr: Service, nServices: bv64)
      requires Shaped() && Inv(St())
      modifies this
      ensures Inv(St()) && Later(old(St()), St()) && mapAddr == old(mapAddr)
      ensures addr in mapAddr ==> mapAddr[addr] in old(mapInfo) && St() == old(St()).(info :=
        old(mapInfo)[mapAddr[addr] := old(mapInfo)[mapAddr[addr]].(nServices := nServices)])
      ensures addr !in mapAddr ==> St() == old(St())
      ensures old(Timed(St())) ==> Timed(St())
      ensures old(Pending(St())) ==> Pending(St())
    {
      hide Structured, Referenced, Later, Pending;
      StructuredAddressed(St());
      LaterReflexive(St());
      var found, nId := Find(addr);
      if found {
        SetInfo(nId, mapInfo[nId].(nServices := nServices));
      }
    }

    // ---------- Collisions in the tried table ----------

    /** One pending collision, judged at time `now`. */
    method ResolveOne(idNew: int, now: int) returns (erase: bool)
      requires Shaped() && Inv(St())
      modifies this, vvNew, vvTried
      ensures Inv(St()) && Later(old(St()), St()) && triedCollisions == old(triedCollisions)
      ensures erase <==> Judge(old(St()), idNew, now) != Keep
      ensures Judge(old(St()), idNew, now) != Replace ==> St() == old(St())
      ensures Judge(old(St()), idNew, now) == Replace ==> idNew in mapInfo && mapInfo[idNew].fInTried && lastGood == now
      ensures old(Timed(St())) && now > 0 ==> Timed(St())
      ensures old(Pending(St())) ==> Pending(St())
    {
      hide Structured, Referenced, Placement.TriedBucket, Placement.Position, Later, Pending, Timed, GoodEffect;
      ghost var s := St();
      StructuredAddressed(s);
      LaterReflexive(s);
      var replace := false;
      if idNew !in mapInfo || !At().IsValid(mapInfo[idNew].addr) {
        return true;
      }
      var b := At().TriedBucket(mapInfo[idNew].addr);
      var p := At().Position(false, b, mapInfo[idNew].addr);
      if vvTried[b, p] != -1 {
        var idOld := vvTried[b, p];
        StructuredTried(s, Slot(b, p));
        var infoOld := mapInfo[idOld];
        if now - infoOld.lastSuccess < REPLACEMENT {
          return true;
        } else if now - infoOld.lastTry < REPLACEMENT {
          replace := now - infoOld.lastTry > MINUTE;
        } else {
          replace := now - mapInfo[idNew].lastSuccess > TEST_WINDOW;
        }
      } else {
        replace := true;
      }
      if replace {
        var moved := Good_(mapInfo[idNew].addr, false, now);
        GoodConsequences(s, St(), idNew, false, now, moved);
        UntestedIsTried(s, St(), idNew, now, moved);
      }
      erase := replace;
    }

    method ResolveCollisions()
      requires Shaped() && Inv(St())
      modifies this, vvNew, vvTried
      ensures Inv(St()) && Later(old(St()), St()) && triedCollisions <= old(triedCollisions)
      ensures old(Timed(St())) ==> Timed(St())
      ensures old(Pending(St())) ==> Pending(St())
    {
      hide Structured, Referenced, Later, Pending, Timed, Judge;
      var todo := triedCollisions;
      LaterReflexive(St());
      StructuredAddressed(St());
      while todo != {}
        invariant Inv(St()) && Later(old(St()), St()) && triedCollisions <= old(triedCollisions)
        invariant old(Timed(St())) ==> Timed(St())
        invariant old(Pending(St())) ==> Pending(St())
        decreases todo
      {
        Inhabited(todo);
        var idNew :| idNew in todo;
        var now: int :| now > 0;
        ghost var s := St();
        var erase := ResolveOne(idNew, now);
        LaterTransitive(old(St()), s, St());
        if erase {
          BookkeepingKeeps(St(), lastGood, triedCollisions - {idNew});
          ForgottenLater(old(St()), St(), triedCollisions - {idNew});
          triedCollisions := triedCollisions - {idNew};
        }
        todo := todo - {idNew};
      }
    }

    /** The tried entry that a pending collision would replace. Looking it up never meets an
        empty slot, so no entry is created by the lookup. */
    method SelectTriedCollision() returns (found: bool, entry: AddrInfo, ghost pending: int)
      requires Shaped() && Inv(St()) && Pending(St())
      modifies this
      ensures Inv(St()) && Later(old(St()), St()) && Pending(St()) && (old(Timed(St())) ==> Timed(St()))
      ensures mapInfo == old(mapInfo) && triedCollisions <= old(triedCollisions)
      ensures forall id :: id in old(triedCollisions) && id in mapInfo ==> id in triedCollisions
      ensures found ==>
        && pending in triedCollisions && pending in mapInfo && entry.fInTried
        && At().TriedSlot(entry.addr) == At().TriedSlot(mapInfo[pending].addr)
        && entry.addr in mapAddr && mapAddr[entry.addr] in mapInfo && mapInfo[mapAddr[entry.addr]] == entry
      ensures !found ==> St() == old(St()).(collisions := triedCollisions)
    {
      hide Structured, Referenced, Placement.TriedBucket, Placement.Position, Later, Timed;
      ghost var s := St();
      LaterReflexive(s);
      entry := FreshEntry(Address(Service(0, 0), 0, 0), 0, 0);
      found, pending := false, -1;
      if triedCollisions == {} {
        return;
      }
      Inhabited(triedCollisions);
      var idNew :| idNew in triedCollisions;
      if idNew !in mapInfo {
        BookkeepingKeeps(s, lastGood, triedCollisions - {idNew});
        ForgottenLater(s, s, triedCollisions - {idNew});
        triedCollisions := triedCollisions - {idNew};
        return;
      }
      var b := At().TriedBucket(mapInfo[idNew].addr);
      var p := At().Position(false, b, mapInfo[idNew].addr);
      assert Slot(b, p) == s.at.TriedSlot(mapInfo[idNew].addr);
      StructuredTried(s, Slot(b, p));
      found, entry, pending := true, mapInfo[vvTried[b, p]], idNew;
    }

    // ---------- A random sample ----------

    /** Draws one of the entries not yet looked at and keeps its address if it is wanted. */
    method SampleOne(n: nat, addresses: seq<Address>, ghost ids: seq<int>, network: Option<Network>, now: int,
                     ghost s: State)
      returns (more: seq<Address>, ghost moreIds: seq<int>)
      requires Shaped() && Shuffled(St()) && Reshuffled(s, St()) && n < |vRandom|
      requires |ids| == |addresses| && Gathered(St(), n, ids, network, now)
      requires forall i :: 0 <= i < |ids| ==> addresses[i] == AddressOf(St(), ids[i])
      modifies this
      ensures Shuffled(St()) && Reshuffled(s, St()) && |vRandom| == old(|vRandom|)
      ensures |moreIds| == |more| <= |addresses| + 1 && Gathered(St(), n + 1, moreIds, network, now)
      ensures forall i :: 0 <= i < |moreIds| ==> more[i] == AddressOf(St(), moreIds[i])
    {
      hide Wanted, Swap, Reshuffled;
      var r: nat :| n <= r < |vRandom|;
      ghost var t := St();
      SwapRandom(n, r);
      SwappedSample(s, t, St(), n, r, ids, network, now);
      var id := vRandom[n];
      more, moreIds := addresses, ids;
      if Wanted(At(), mapInfo[id], network, now) {
        more := addresses + [Address(mapInfo[id].addr, mapInfo[id].nTime, mapInfo[id].nServices)];
        moreIds := ids + [id];
      }
      GatheredOne(St(), n, ids, moreIds, network, now);
    }

    /** Shuffles in place and returns wanted addresses without repetition: as many as the limit
        allows, or all of them. */
    method GetAddr(maxAddresses: nat, maxPct: nat, network: Option<Network>, now: int)
      returns (addresses: seq<Address>, ghost ids: seq<int>)
      requires Shaped() && Inv(St())
      modifies this
      ensures Inv(St()) && Reshuffled(old(St()), St())
      ensures |ids| == |addresses| && Distinct(ids)
      ensures forall i :: 0 <= i < |ids| ==>
        ids[i] in WantedIds(St(), network, now) && addresses[i] == AddressOf(St(), ids[i])
      ensures |addresses| == Min(SampleLimit(|old(vRandom)|, maxAddresses, maxPct), |WantedIds(old(St()), network, now)|)
    {
      hide Structured, Wanted, Min, SampleLimit, Reshuffled, Shuffled;
      ghost var s := St();
      StructuredShuffled(s);
      ReshuffledReflexive(s);
      var nNodes := SampleLimit(|vRandom|, maxAddresses, maxPct);
      addresses, ids := [], [];
      GatheredNone(s, network, now);
      var n := 0;
      while n < |vRandom| && |addresses| < nNodes
        invariant Shuffled(St()) && Reshuffled(s, St()) && n <= |vRandom| && |addresses| <= nNodes
        invariant |ids| == |addresses| && Gathered(St(), n, ids, network, now)
        invariant forall i :: 0 <= i < |ids| ==> addresses[i] == AddressOf(St(), ids[i])
        decreases |vRandom| - n
      {
        addresses, ids := SampleOne(n, addresses, ids, network, now, s);
        n := n + 1;
      }
      SampleSize(s, St(), n, ids, nNodes, network, now);
      ReshuffledInv(s, St());
    }
  }

  function SampleLimit(total: nat, maxAddresses: nat, maxPct: nat): nat {
    var n := if maxPct != 0 then maxPct * total / 100 else total;
    if maxAddresses != 0 then Min(n, maxAddresses) else n
  }

  predicate Wanted(at: Placement, i: AddrInfo, network: Option<Network>, now: int) {
    (network.Some? ==> at.env.netClass(i.addr.ip) == network.value) && !IsTerrible(i, now)
  }

  ghost function WantedIds(s: State, network: Option<Network>, now: int): set<int> {
    set id | id in s.info && Wanted(s.at, s.info[id], network, now)
  }

  function AddressOf(s: State, id: int): Address {
    if id in s.info then Address(s.info[id].addr, s.info[id].nTime, s.info[id].nServices) else Address(Service(0, 0), 0, 0)
  }

  predicate Distinct(ids: seq<int>) {
    forall i, j :: 0 <= i < j < |ids| ==> ids[i] != ids[j]
  }

  /** `ids` are the wanted entries among the first `n` of vRandom, once each. */
  ghost predicate Gathered(s: State, n: nat, ids: seq<int>, network: Option<Network>, now: int) {
    && n <= |s.random| && Distinct(ids)
    && (forall id :: id in ids ==> id in WantedIds(s, network, now) && s.info[id].nRandomPos < n)
    && (forall id :: id in WantedIds(s, network, now) && s.info[id].nRandomPos < n ==> id in ids)
  }

  lemma GatheredNone(s: State, network: Option<Network>, now: int)
    requires Shuffled(s)
    ensures Gathered(s, 0, [], network, now)
  {
  }

  lemma {:induction false} GatheredOne(s: State, n: nat, before: seq<int>, ids: seq<int>, network: Option<Network>,
                                       now: int)
    requires Shuffled(s) && n < |s.random| && Gathered(s, n, before, network, now)
    requires var id := s.random[n]; id in s.info && ids == if Wanted(s.at, s.info[id], network, now) then before + [id] else before
    ensures Gathered(s, n + 1, ids, network, now)
  {
    hide Wanted;
    var x := s.random[n];
    forall id | id in ids ensures id in WantedIds(s, network, now) && s.info[id].nRandomPos < n + 1 {
      assert id in before || id == x;
    }
    forall id | id in WantedIds(s, network, now) && s.info[id].nRandomPos < n + 1 ensures id in ids {
      if s.info[id].nRandomPos == n { assert id == x; } else { assert id in before; }
    }
    assert x !in before;
  }

  lemma {:induction false} ReshuffledTransitive(s: State, t: State, u: State)
    requires Reshuffled(s, t) && Reshuffled(t, u)
    ensures Reshuffled(s, u)
  {
    assert forall id :: id in u.info ==> id in t.info.Keys;
  }

  lemma ReshuffledReflexive(s: State)
    ensures Reshuffled(s, s)
  {
  }

  lemma {:induction false} WantedReshuffled(s: State, t: State, network: Option<Network>, now: int)
    requires Reshuffled(s, t)
    ensures WantedIds(t, network, now) == WantedIds(s, network, now)
    ensures forall id :: id in s.info ==> AddressOf(t, id) == AddressOf(s, id)
  {
    forall id: int ensures id in WantedIds(t, network, now) <==> id in WantedIds(s, network, now) {
      assert id in t.info.Keys <==> id in s.info.Keys;
    }
  }

  lemma {:induction false} SwappedSample(s: State, t: State, u: State, n: nat, r: nat, ids: seq<int>,
                                         network: Option<Network>, now: int)
    requires Shuffled(t) && Reshuffled(s, t) && n <= r < |t.random| && Gathered(t, n, ids, network, now)
    requires n == r || (t.random[n] in t.info && t.random[r] in t.info)
    requires u == if n == r then t else Swap(t, n, r)
    ensures Shuffled(u) && Reshuffled(s, u) && |u.random| == |t.random| && Gathered(u, n, ids, network, now)
    ensures u.random[n] in u.info && forall i :: 0 <= i < |ids| ==> AddressOf(u, ids[i]) == AddressOf(t, ids[i])
  {
    hide Wanted;
    if n != r {
      SwapKeeps(t, n, r);
      ReshuffledTransitive(s, t, u);
      WantedReshuffled(t, u, network, now);
    }
  }

  lemma {:induction false} DistinctSize(ids: seq<int>)
    requires Distinct(ids)
    ensures |set id | id in ids| == |ids|
  {
    if ids != [] {
      var rest, last := ids[..|ids| - 1], ids[|ids| - 1];
      DistinctSize(rest);
      assert (set id | id in ids) == (set id | id in rest) + {last};
    }
  }

  lemma {:induction false} SampleSize(s: State, t: State, n: nat, ids: seq<int>, limit: nat,
                                      network: Option<Network>, now: int)
    requires Shuffled(t) && Reshuffled(s, t) && Gathered(t, n, ids, network, now)
    requires |ids| <= limit && (n == |t.random| || |ids| == limit)
    ensures |ids| == Min(limit, |WantedIds(s, network, now)|)
  {
    hide Wanted;
    WantedReshuffled(s, t, network, now);
    DistinctSize(ids);
    var all, got := WantedIds(t, network, now), set id | id in ids;
    forall id | id in got ensures id in all { assert id in ids; }
    assert got <= all;
    SubsetSize(got, all);
    if n == |t.random| {
      forall id | id in all ensures id in got { assert t.info[id].nRandomPos < n; }
      assert got == all;
    }
  }

  lemma {:induction false} StructuredShuffled(s: State)
    requires Structured(s, {})
    ensures Shuffled(s)
  {
    hide Shuffled, Addressed, TriedPlaced, NewPlaced, RefCounted, Counted, Sensible;
  }

  lemma {:induction false} ReshuffledInv(s: State, t: State)
    requires Inv(s) && Reshuffled(s, t) && Shuffled(t)
    ensures Inv(t) && Later(s, t) && (Timed(s) ==> Timed(t)) && (Pending(s) ==> Pending(t))
  {
    ReshuffledLater(s, t);
    hide Shuffled, Addressed, TriedPlaced, NewPlaced, RefCounted, Counted, Sensible, Reshuffled, Timed, Pending,
         Later, Referenced;
    ReshuffledTables(s, t);
    ReshuffledEntries(s, t, {}, {});
  }

  lemma ReshuffledLater(s: State, t: State)
    requires Reshuffled(s, t)
    ensures Later(s, t)
  {
  }

  const REPLACEMENT := 4 * HOUR
  const TEST_WINDOW := 40 * MINUTE

  datatype Verdict = Keep | Drop | Replace

  /** The fate of a pending collision. */
  function Judge(s: State, id: int, now: int): Verdict {
    if id !in s.info || !s.at.IsValid(s.info[id].addr) then Drop else
    var k := s.at.TriedSlot(s.info[id].addr);
    if k !in s.triedTable || s.triedTable[k] !in s.info then Replace else
    var rival := s.info[s.triedTable[k]];
    if now - rival.lastSuccess < REPLACEMENT then Drop
    else if now - rival.lastTry < REPLACEMENT then if now - rival.lastTry > MINUTE then Replace else Keep
    else if now - s.info[id].lastSuccess > TEST_WINDOW then Replace
    else Keep
  }

  lemma StructuredTried(s: State, k: Slot)
    requires Structured(s, {}) && k in s.triedTable
    ensures var id := s.triedTable[k];
      && id in s.info && s.info[id].fInTried && k == s.at.TriedSlot(s.info[id].addr)
      && s.info[id].addr in s.addr && s.addr[s.info[id].addr] == id
  {
    hide Shuffled, NewPlaced, RefCounted, Sensible, Counted, Placement.TriedSlot;
  }

  lemma {:induction false} UntestedIsTried(s: State, t: State, id: int, time: int, moved: bool)
    requires Inv(s) && id in s.info && GoodEffect(s, t, id, false, time, moved) && id in t.info
    requires moved ==> t.info[id].fInTried
    ensures t.info[id].fInTried && t.lastGood == time && t.collisions == s.collisions
  {
    hide Structured, Placement.TriedSlot, HomeSlot, Strip;
  }

  lemma ForgottenLater(s: State, t: State, ids: set<int>)
    requires Later(s, t) && ids <= t.collisions
    ensures var u := t.(lastGood := t.lastGood, collisions := ids);
      Later(s, u) && (Timed(t) ==> Timed(u)) && (Pending(t) ==> Pending(u))
  {
    hide Placement.TriedSlot;
  }

  /** An entry after a connection attempt; a failure counts once per good connection elsewhere. */
  function Attempted(i: AddrInfo, countFailure: bool, time: int, lastGood: int): AddrInfo {
    var j := i.(lastTry := time);
    if countFailure && i.lastCountAttempt < lastGood then j.(lastCountAttempt := time, nAttempts := i.nAttempts + 1) else j
  }

  function SeenAt(i: AddrInfo, time: int): AddrInfo {
    if time - i.nTime > 20 * MINUTE then i.(nTime := time) else i
  }

  const TRIED_COLLISION_SIZE := 10

  ghost predicate PromotionEffect(s: State, t: State, id: int, test: bool, moved: bool)
    requires id in s.info
  {
    && (moved <==> !(test && s.at.TriedSlot(s.info[id].addr) in s.triedTable))
    && (moved ==> Promoted(s, t, id))
    && (!moved ==> t == s.(collisions := s.collisions + if |s.collisions| < TRIED_COLLISION_SIZE then {id} else {}))
  }

  /** A known address that is not tried and whose place in the tried table is taken: a success does
      not move it before the occupant was tested. */
  ghost predicate StaysUntried(s: State, id: int) {
    id in s.info && !s.info[id].fInTried && s.at.TriedSlot(s.info[id].addr) in s.triedTable
  }

  /** What a successful connection to the known entry `id` does: it is recorded, and the entry is
      promoted unless it is tried already or would evict another without a test. */
  ghost predicate GoodEffect(s: State, t: State, id: int, test: bool, time: int, moved: bool)
    requires id in s.info
  {
    if s.info[id].fInTried then !moved && t == Succeeded(s, id, time)
    else PromotionEffect(Succeeded(s, id, time), t, id, test, moved)
  }

  lemma {:induction false} GoodLater(s: State, t: State, id: int, test: bool, time: int, moved: bool)
    requires Inv(s) && id in s.info && GoodEffect(s, t, id, test, time, moved)
    ensures Later(s, t) && id in t.info
  {
    hide Structured, Referenced, Promoted;
    SucceededKeeps(s, id, time);
    if moved {
      PromotedLater(Succeeded(s, id, time), t, id);
      StructuredAddressed(s);
      LaterTransitive(s, Succeeded(s, id, time), t);
      PromotedKept(Succeeded(s, id, time), t, id);
    }
  }

  lemma PromotedKept(s: State, t: State, id: int)
    requires id in s.info && Promoted(s, t, id)
    ensures id in t.info
  {
  }

  /** Entries keep their statistics but for the recorded success, and only `id` may become tried. */
  lemma {:induction false} GoodEntries(s: State, t: State, id: int, test: bool, time: int, moved: bool)
    requires Inv(s) && Inv(t) && id in s.info && id in t.info && GoodEffect(s, t, id, test, time, moved)
    ensures forall j :: j in t.info ==> j in s.info && SameStats(t.info[j], Succeeded(s, id, time).info[j])
    ensures forall j :: j in t.info && j != id && t.info[j].fInTried ==> s.info[j].fInTried
    ensures moved ==> t.info[id].fInTried
    ensures t.info[id].fInTried <==> !(test && StaysUntried(s, id))
  {
    hide Shuffled, Addressed, NewPlaced, TriedPlaced, RefCounted, Counted, Sensible, Placement.TriedSlot;
    if moved {
      SucceededKeeps(s, id, time);
      PromotedTried(Succeeded(s, id, time), t, id);
    }
  }

  lemma {:induction false} GoodCollisions(s: State, t: State, id: int, test: bool, time: int, moved: bool)
    requires id in s.info && id in t.info && GoodEffect(s, t, id, test, time, moved) && t.at == s.at
    requires t.info[id].addr == s.info[id].addr
    ensures forall j :: j in t.collisions ==> j in s.collisions || (j == id && s.at.TriedSlot(t.info[id].addr) in t.triedTable)
  {
    hide Placement.TriedSlot, HomeSlot, Strip;
    if moved { hide SameStats; }
  }

  lemma {:induction false} GoodPending(s: State, t: State, id: int, test: bool, time: int, moved: bool)
    requires Inv(s) && id in s.info && id in t.info && GoodEffect(s, t, id, test, time, moved) && Later(s, t)
    requires Pending(s)
    ensures Pending(t)
  {
    StructuredAddressed(s);
    LaterEntry(s, t, id);
    hide Inv, GoodEffect, Pending, Later, Sensible, Addressed;
    GoodCollisions(s, t, id, test, time, moved);
    PendingKept(s, t);
  }

  lemma LaterEntry(s: State, t: State, id: int)
    requires Later(s, t) && id in s.info && id in t.info
    ensures t.at == s.at && t.info[id].addr == s.info[id].addr
  {
  }

  lemma {:induction false} GoodConsequences(s: State, t: State, id: int, test: bool, time: int, moved: bool)
    requires Inv(s) && Inv(t) && id in s.info && GoodEffect(s, t, id, test, time, moved)
    ensures Later(s, t) && id in t.info && (moved ==> t.info[id].fInTried)
    ensures Timed(s) ==> (Timed(t) <==> time > 0 || (time == 0 && test && StaysUntried(s, id)))
    ensures Pending(s) ==> Pending(t)
  {
    hide Inv, GoodEffect, Later, Timed, Pending, StaysUntried;
    GoodLater(s, t, id, test, time, moved);
    GoodEntries(s, t, id, test, time, moved);
    if Pending(s) { GoodPending(s, t, id, test, time, moved); }
    if Timed(s) { SucceededTimed(s, t, id, time); }
  }

  /** An untested success evicts nothing: all other entries stay where they are. */
  lemma {:induction false} GoodOthers(s: State, t: State, id: int, time: int, moved: bool)
    requires Inv(s) && Inv(t) && id in s.info && id in t.info && GoodEffect(s, t, id, true, time, moved)
    ensures forall j :: j in s.info && j != id ==> j in t.info && (s.info[j].fInTried ==> t.info[j].fInTried)
  {
    hide Shuffled, Addressed, NewPlaced, TriedPlaced, RefCounted, Counted, Sensible, Placement.TriedSlot, HomeSlot,
         Strip;
    if moved {
      SucceededKeeps(s, id, time);
      PromotedOthers(Succeeded(s, id, time), t, id);
    }
  }

  /** When the recorded times are sensible after a success, in terms of the state before it; also when
      they were not. */
  lemma {:induction false} GoodTimed(s: State, t: State, id: int, time: int, moved: bool)
    requires Inv(s) && Inv(t) && id in s.info && GoodEffect(s, t, id, true, time, moved)
    ensures Timed(t) <==> TimedBut(s, id) && (time > 0 || (time == 0 && StaysUntried(s, id)))
    ensures TimedBut(t, id) <==> TimedBut(s, id)
  {
    hide Inv, GoodEffect, Later, Pending, StaysUntried;
    GoodLater(s, t, id, true, time, moved);
    GoodEntries(s, t, id, true, time, moved);
    GoodOthers(s, t, id, time, moved);
    SucceededTimedExactly(s, t, id, time);
  }

  lemma StillAddressed(s: State, t: State, id: int)
    requires Later(s, t) && Addressed(t) && id in s.info && id in t.info
    ensures s.info[id].addr in t.addr && t.addr[s.info[id].addr] == id
  {
  }

  lemma {:induction false} UpdatedLater(s: State, id: int, i: AddrInfo)
    requires id in s.info && SamePlace(i, s.info[id]) && i.source == s.info[id].source
    ensures var t := s.(info := s.info[id := i]);
      && Later(s, t) && (Pending(s) ==> Pending(t)) && (Timed(s) ==> (Timed(t) <==> TimedEntry(i)))
  {
    hide Placement.TriedSlot;
    var t := s.(info := s.info[id := i]);
    assert t.info[id] == i;
  }

  lemma LastGoodLater(s: State, time: int)
    ensures var t := s.(lastGood := time); Later(s, t) && (Timed(s) <==> Timed(t)) && (Pending(s) ==> Pending(t))
  {
    hide Placement.TriedSlot;
  }

  lemma {:induction false} NewIsReferenced(s: State, id: int)
    requires Inv(s) && id in s.info && !s.info[id].fInTried
    ensures s.info[id].nRefCount > 0
  {
    hide Structured;
  }

  /** An entry's time and services after hearing of its address again. */
  function Refreshed(i: AddrInfo, addr: Address, timePenalty: int, now: int): AddrInfo {
    var interval := if now - addr.time < DAY then HOUR else DAY;
    var j := if i.nTime < addr.time - interval - timePenalty then i.(nTime := Max(0, addr.time - timePenalty)) else i;
    j.(nServices := j.nServices | addr.services)
  }

  lemma RefreshedKnown(i: AddrInfo, addr: Address, timePenalty: int, now: int)
    ensures var j := Refreshed(i, addr, timePenalty, now); Known(j, i) && SamePlace(j, i)
  {
  }

  lemma {:induction false} ReadyToPlace(s: State, t: State, id: int, i: AddrInfo)
    requires Inv(s) && Inv(t) && id in s.info && t == s.(info := s.info[id := i]) && SamePlace(i, s.info[id])
    requires !i.fInTried
    requires i.nRefCount != NEW_BUCKETS_PER_ADDRESS
    ensures Structured(t, {}) && Referenced(t, {id}) && 0 < i.nRefCount < NEW_BUCKETS_PER_ADDRESS
  {
    hide Structured;
    KnownId(t, {}, id);
  }

  /** An unknown address as it is first noted: an entry without references. */
  function Noted(s: State, addr: Address, source: NetAddr, timePenalty: int): State {
    var t, id := Created(s, addr, source), s.idCount;
    t.(info := t.info[id := t.info[id].(nTime := Max(0, addr.time - timePenalty))])
  }

  lemma {:induction false} NotedEffect(s: State, addr: Address, source: NetAddr, timePenalty: int)
    requires s.idCount !in s.info
    ensures var t, id := Noted(s, addr, source, timePenalty), s.idCount;
      && id in t.info && t.info[id].addr == addr.service
      && t.info[id].nRefCount == 0 && TimedEntry(t.info[id]) && !t.info[id].fInTried
      && t.info == s.info[id := t.info[id]] && t.idCount == s.idCount + 1 && t.at == s.at && t.triedTable == s.triedTable
      && t.newTable == s.newTable && t.lastGood == s.lastGood && t.collisions == s.collisions
      && forall j :: j in s.info ==> j in t.info && t.info[j] == s.info[j]
  {
    hide Adjust;
  }

  lemma {:induction false} NotedKeeps(s: State, addr: Address, source: NetAddr, timePenalty: int)
    requires Inv(s) && addr.service !in s.addr && s.at.IsValid(addr.service)
    ensures var t := Noted(s, addr, source, timePenalty); Structured(t, {}) && Referenced(t, {s.idCount})
  {
    hide Shuffled, Addressed, TriedPlaced, NewPlaced, RefCounted, Counted, Sensible, Adjust, Structured;
    CreatedKeeps(s, {}, addr, source);
    var t, id := Created(s, addr, source), s.idCount;
    UpdatedKeeps(t, {}, {id}, id, t.info[id].(nTime := Max(0, addr.time - timePenalty)));
  }

  /** A slot a new address may take: free, or held by an entry that is terrible or has another slot. */
  predicate Replaceable(s: State, k: Slot, now: int) {
    k in s.newTable ==>
      var other := s.newTable[k]; other in s.info ==> IsTerrible(s.info[other], now) || s.info[other].nRefCount > 1
  }

  lemma {:induction false} InsertableNoted(s: State, t: State, id: int, k: Slot, now: int)
    requires Structured(s, {}) && Structured(t, {}) && id == s.idCount && id in t.info && t.newTable == s.newTable
    requires forall j :: j in s.info ==> j in t.info && t.info[j] == s.info[j]
    requires t.info[id].nRefCount == 0
    ensures Insertable(t, id, k, now) <==> Replaceable(s, k, now)
  {
    hide Shuffled, Addressed, TriedPlaced, RefCounted, Counted, IsTerrible;
    assert id !in s.info;
  }

  lemma KnownIds(s: State)
    requires Structured(s, {})
    ensures s.idCount !in s.info
  {
    hide Shuffled, Addressed, TriedPlaced, NewPlaced, RefCounted, Counted;
  }

  lemma {:induction false} StructuredAddressed(s: State)
    requires Structured(s, {})
    ensures Addressed(s) && Sensible(s)
  {
    hide Shuffled, Addressed, TriedPlaced, NewPlaced, RefCounted, Counted, Sensible;
  }

  /** While the scan for references to `id` runs: those met in the first `n` buckets are gone. */
  ghost predicate Stripping(was: State, now: State, id: int, start: nat, n: nat) {
    && (forall k :: k in now.newTable <==> k in was.newTable && !(was.newTable[k] == id && Offset(start, k.bucket) < n))
    && (forall k :: k in now.newTable ==> now.newTable[k] == was.newTable[k])
    && id in was.info && id in now.info && now.info == was.info[id := was.info[id].(nRefCount := now.info[id].nRefCount)]
    && now == was.(info := now.info, newTable := now.newTable)
  }

  lemma {:induction false} OffsetIs(start: nat, n: nat, c: nat)
    requires start < NEW_BUCKETS && n < NEW_BUCKETS && c < NEW_BUCKETS
    ensures Offset(start, c) == n <==> c == (start + n) % NEW_BUCKETS
  {
  }

  lemma {:induction false} StrippingStarts(was: State, id: int, start: nat)
    requires id in was.info
    ensures Stripping(was, was, id, start, 0)
  {
    hide Offset;
    assert was.info == was.info[id := was.info[id]];
  }

  lemma {:induction false} StrippingStep(was: State, now: State, id: int, start: nat, n: nat, b: nat)
    requires Stripping(was, now, id, start, n) && start < NEW_BUCKETS && n < NEW_BUCKETS && NewPlaced(was)
    requires b == (start + n) % NEW_BUCKETS
    ensures var k := now.at.NewSlot(was.info[id].addr, b);
      if k in now.newTable && now.newTable[k] == id then Stripping(was, Unreferenced(now, k), id, start, n + 1)
      else Stripping(was, now, id, start, n + 1)
  {
    hide Placement.Position, Offset;
    var k := now.at.NewSlot(was.info[id].addr, b);
    forall c | c in was.newTable && was.newTable[c] == id
      ensures Offset(start, c.bucket) == n <==> c == k
    {
      OffsetIs(start, n, c.bucket);
    }
    assert Offset(start, b) == n by { OffsetIs(start, n, b); }
    if k in now.newTable && now.newTable[k] == id {
      var next := Unreferenced(now, k);
    }
  }

  lemma {:induction false} StrippingEnds(was: State, now: State, id: int, start: nat, n: nat)
    requires Stripping(was, now, id, start, n) && Structured(now, {})
    requires n == NEW_BUCKETS || now.info[id].nRefCount == 0
    ensures now == Stripped(was, id)
  {
    hide Shuffled, Addressed, TriedPlaced, Sensible, Counted, Placement.NewSlot;
    forall k | k in now.newTable ensures now.newTable[k] != id {
      if now.info[id].nRefCount == 0 { NoRefsNoSlots(now, id, k); }
    }
    assert now.newTable == Strip(was.newTable, id);
    assert BucketsOf(now.at, now.newTable, now.info[id].addr, id) == {};
  }

  lemma {:induction false} LeftNewReady(s: State, id: int)
    requires Inv(s) && id in s.info && !s.info[id].fInTried && Structured(Stripped(s, id), {})
    ensures var t := LeftNew(Stripped(s, id), id);
      && Structured(t, {id}) && Referenced(t, {id}) && id in t.info && t.info[id].nRefCount == 0 && !t.info[id].fInTried
      && t.at == s.at && t.info[id].addr == s.info[id].addr && t.triedTable == s.triedTable
  {
    hide Shuffled, Addressed, TriedPlaced, NewPlaced, RefCounted, Counted, Sensible, Strip;
    LeftNewKeeps(Stripped(s, id), {}, id);
    assert {} + {id} == {id};
  }

  /** After the eviction, if any, the slot is free and taking it restores the invariant. */
  lemma {:induction false} PromotionDone(s: State, t: State, u: State, id: int, k: Slot)
    requires Inv(s) && id in s.info && !s.info[id].fInTried && t == LeftNew(Stripped(s, id), id)
    requires k == s.at.TriedSlot(s.info[id].addr) && t.info[id].nRefCount == 0
    requires Structured(u, {id}) && Referenced(u, {id})
    requires if k in t.triedTable then Demoted(t, u, k) else u == t
    ensures id in u.info && u.at == s.at && u.info[id].addr == s.info[id].addr && k !in u.triedTable
    ensures Inv(EnteredTried(u, id)) && Promoted(s, EnteredTried(u, id), id)
  {
    hide Shuffled, Addressed, NewPlaced, TriedPlaced, RefCounted, Counted, Sensible, Strip, Promoted,
         Placement.TriedSlot, Placement.NewSlot;
    if k in t.triedTable {
      TriedOccupant(s, k);
      PromotedEvicting(s, t, u, id, k);
    } else {
      PromotedFree(s, id);
    }
    EnteredTriedKeeps(u, {id}, id);
    assert {id} - {id} == {};
  }

  lemma EmptyCounted(s: State)
    requires s.info == map[] && s.nNew == 0 && s.nTried == 0 && s.counts == map[]
    ensures Counted(s, {})
  {
    assert Kinds(s, {}) == map[];
  }
}
