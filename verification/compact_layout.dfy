/** Where the transactions of a compact block announcement belong. */
module CompactLayout {
  import opened Prelude

  /** A transaction with its witness hash; a null one has neither inputs nor outputs. */
  datatype Tx = Tx(wtxid: nat, isNull: bool)

  /** A transaction sent in full, with its distance from the one before it. */
  datatype Prefilled = Prefilled(index: nat, tx: Tx)

  /** Header 0 is the null header; the key selects the short-id hash. */
  datatype Announcement = Announcement(header: nat, key: nat, shortIds: seq<nat>, prefilled: seq<Prefilled>)

  type Slots = seq<Option<Tx>>

  const UINT16_MAX := 0xFFFF
  const UINT16_RANGE := UINT16_MAX + 1
  const MAX_BLOCK_TXS := 32_000_000 / 40

  function TxCount(a: Announcement): nat { |a.shortIds| + |a.prefilled| }

  /** What reading an announcement from the network guarantees. */
  predicate Readable(a: Announcement) {
    TxCount(a) <= UINT16_MAX && forall i :: 0 <= i < |a.prefilled| ==> a.prefilled[i].index <= UINT16_MAX
  }

  // ---------- Prefilled transactions ----------

  /** The place of the last of the first n prefilled transactions. */
  function LastIndex(pre: seq<Prefilled>, n: nat): int
    requires n <= |pre|
  {
    if n == 0 then -1 else LastIndex(pre, n - 1) + pre[n - 1].index + 1
  }

  lemma {:induction false} LastIndexGrows(pre: seq<Prefilled>, m: nat, n: nat)
    requires m <= n <= |pre|
    ensures LastIndex(pre, n) >= LastIndex(pre, m) + (n - m)
  {
    if m < n { LastIndexGrows(pre, m, n - 1); }
  }

  /** Every prefilled transaction is there and there is one for every place before it. */
  predicate WellPlaced(a: Announcement) {
    forall i :: 0 <= i < |a.prefilled| ==> PlaceOk(a, i)
  }

  predicate PlaceOk(a: Announcement, i: nat)
    requires i < |a.prefilled|
  {
    !a.prefilled[i].tx.isNull && LastIndex(a.prefilled, i + 1) <= UINT16_MAX && LastIndex(a.prefilled, i + 1) <= |a.shortIds| + i
  }

  /** The first n prefilled transactions stand at their places, everything else is open. */
  ghost predicate LaidOut(pre: seq<Prefilled>, n: nat, t: Slots) {
    && n <= |pre|
    && (forall i :: 0 <= i < n ==> StandsAt(pre, i, t))
    && |Occupied(t)| == n
  }

  predicate StandsAt(pre: seq<Prefilled>, i: nat, t: Slots)
    requires i < |pre|
  {
    var k := LastIndex(pre, i + 1);
    0 <= k < |t| && t[k] == Some(pre[i].tx)
  }

  ghost function Occupied(t: Slots): set<int> {
    set p | 0 <= p < |t| && t[p].Some?
  }

  lemma {:induction false} OccupyOne(t: Slots, k: nat, tx: Tx)
    requires k < |t| && t[k].None?
    ensures |Occupied(t[k := Some(tx)])| == |Occupied(t)| + 1
  {
    assert Occupied(t[k := Some(tx)]) == Occupied(t) + {k as int};
  }

  lemma {:induction false} LaidOutNext(pre: seq<Prefilled>, n: nat, t: Slots)
    requires n < |pre| && LaidOut(pre, n, t) && LastIndex(pre, n + 1) < |t|
    requires forall p :: 0 <= p < |t| && LastIndex(pre, n) < p ==> t[p].None?
    ensures 0 <= LastIndex(pre, n + 1)
    ensures var u := t[LastIndex(pre, n + 1) := Some(pre[n].tx)];
      LaidOut(pre, n + 1, u) && forall p :: LastIndex(pre, n + 1) < p < |u| ==> u[p].None?
  {
    NoPrefilled(pre);
    LastIndexGrows(pre, 0, n + 1);
    LastIndexGrows(pre, n, n + 1);
    hide Occupied, LastIndex;
    var k := LastIndex(pre, n + 1);
    var u := t[k := Some(pre[n].tx)];
    OccupyOne(t, k, pre[n].tx);
    forall i | 0 <= i < n + 1 ensures StandsAt(pre, i, u) {
      LastIndexGrows(pre, i + 1, n + 1);
      assert i < n ==> StandsAt(pre, i, t);
    }
  }

  // ---------- The open places ----------

  function Gaps(t: Slots): seq<nat> {
    if t == [] then [] else Gaps(t[..|t| - 1]) + if t[|t| - 1].None? then [|t| - 1] else []
  }

  lemma {:induction false} GapsAre(t: Slots)
    ensures forall p :: p in Gaps(t) <==> 0 <= p < |t| && t[p].None?
    ensures forall i, j :: 0 <= i < j < |Gaps(t)| ==> Gaps(t)[i] < Gaps(t)[j]
  {
    if t != [] {
      var u := t[..|t| - 1];
      GapsAre(u);
      assert forall i :: 0 <= i < |Gaps(u)| ==> Gaps(u)[i] in Gaps(u);
    }
  }

  lemma {:induction false} GapsCount(t: Slots)
    ensures |Gaps(t)| + |Occupied(t)| == |t|
  {
    if t != [] {
      var n := |t| - 1;
      var u := t[..n];
      GapsCount(u);
      assert Occupied(t) == Occupied(u) + if t[n].Some? then {n} else {};
    }
  }

  /** After the prefilled transactions there is exactly one open place for every short id. */
  lemma {:induction false} OnePlaceEach(a: Announcement, t: Slots)
    requires LaidOut(a.prefilled, |a.prefilled|, t) && |t| == TxCount(a)
    ensures |Gaps(t)| == |a.shortIds|
  {
    GapsCount(t);
  }

  /** How far from the open place of the i-th short id the i-th place is. */
  lemma {:induction false} GapOffset(t: Slots, i: nat)
    requires i < |Gaps(t)|
    ensures i <= Gaps(t)[i] < |t|
  {
    GapsAre(t);
    assert Gaps(t)[i] in Gaps(t);
    GapAtLeast(t, i);
  }

  lemma {:induction false} GapAtLeast(t: Slots, i: nat)
    requires i < |Gaps(t)|
    ensures i <= Gaps(t)[i]
  {
    GapsAre(t);
    if i > 0 { GapAtLeast(t, i - 1); }
  }

  /** The k-th short id stands for the k-th open place. */
  ghost predicate Positions(a: Announcement, t: Slots, places: map<nat, nat>, n: nat) {
    && n <= |a.shortIds| == |Gaps(t)|
    && (forall id :: id in places ==> exists k :: 0 <= k < n && a.shortIds[k] == id && places[id] == Gaps(t)[k])
    && (forall k :: 0 <= k < n ==> a.shortIds[k] in places)
    && |places| <= n
  }

  /** A place as it is stored, in 16 bits. */
  function Low16(p: nat): nat { p % UINT16_RANGE }

  lemma Low16Keeps(p: nat)
    ensures Low16(p) <= UINT16_MAX && (Low16(p) == p <==> p <= UINT16_MAX)
  {
  }

  /** The map holds the first n short ids, each with the place of one of its positions. */
  ghost predicate Filed(a: Announcement, t: Slots, places: map<nat, nat>, n: nat) {
    && n <= |a.shortIds| == |Gaps(t)|
    && (forall id :: id in places ==> exists k :: 0 <= k < n && a.shortIds[k] == id && places[id] == Low16(Gaps(t)[k]))
    && (forall k :: 0 <= k < n ==> a.shortIds[k] in places)
  }

  /** What the map from short ids to 16-bit places holds after n of them. */
  ghost predicate Stored(a: Announcement, t: Slots, places: map<nat, nat>, n: nat) {
    Filed(a, t, places, n) && |places| <= n && (|places| == n <==> Distinct(a.shortIds, n))
  }

  /** The first n short ids differ. */
  predicate Distinct(ids: seq<nat>, n: nat)
    requires n <= |ids|
  {
    forall i, j :: 0 <= i < j < n ==> ids[i] != ids[j]
  }

  lemma {:induction false} StoredNext(a: Announcement, t: Slots, places: map<nat, nat>, i: nat)
    requires Stored(a, t, places, i) && i < |a.shortIds|
    ensures Stored(a, t, places[a.shortIds[i] := Low16(Gaps(t)[i])], i + 1)
  {
    assert |Gaps(t)| == |a.shortIds|;
    FiledNext(a, t, places, i);
    FiledKeys(a, t, places, i);
    hide Gaps, Low16, Filed, Distinct;
    DistinctNext(a.shortIds, places, i, Low16(Gaps(t)[i]));
  }

  lemma {:induction false} FiledKeys(a: Announcement, t: Slots, places: map<nat, nat>, n: nat)
    requires Filed(a, t, places, n)
    ensures forall k :: 0 <= k < n ==> a.shortIds[k] in places
    ensures forall id :: id in places ==> id in a.shortIds[..n]
  {
    hide Gaps, Low16;
    forall id | id in places ensures id in a.shortIds[..n] {
      var k :| 0 <= k < n && a.shortIds[k] == id && places[id] == Low16(Gaps(t)[k]);
      assert a.shortIds[..n][k] == id;
    }
  }

  lemma {:induction false} FiledNext(a: Announcement, t: Slots, places: map<nat, nat>, i: nat)
    requires Filed(a, t, places, i) && i < |a.shortIds|
    ensures Filed(a, t, places[a.shortIds[i] := Low16(Gaps(t)[i])], i + 1)
  {
    hide Gaps, Low16;
    var last, p := a.shortIds[i], Low16(Gaps(t)[i]);
    var next := places[last := p];
    forall id | id in next ensures exists k :: 0 <= k < i + 1 && a.shortIds[k] == id && next[id] == Low16(Gaps(t)[k]) {
      if id == last {
        assert a.shortIds[i] == id && next[id] == Low16(Gaps(t)[i]);
      } else {
        assert id in places;
      }
    }
  }

  lemma {:induction false} DistinctNext(ids: seq<nat>, places: map<nat, nat>, i: nat, p: nat)
    requires i < |ids| && (forall k :: 0 <= k < i ==> ids[k] in places)
    requires forall id :: id in places ==> id in ids[..i]
    requires |places| <= i && (|places| == i <==> Distinct(ids, i))
    ensures |places[ids[i] := p]| <= i + 1 && (|places[ids[i] := p]| == i + 1 <==> Distinct(ids, i + 1))
  {
    DistinctGrows(ids, i);
    PutSize(places, ids[i], p);
    assert ids[i] in places <==> ids[i] in ids[..i];
    hide Distinct;
  }

  lemma PutSize(places: map<nat, nat>, id: nat, p: nat)
    ensures |places[id := p]| == |places| + if id in places then 0 else 1
  {
    assert places[id := p].Keys == places.Keys + {id};
    KeysSize(places);
    KeysSize(places[id := p]);
  }

  lemma {:induction false} DistinctGrows(ids: seq<nat>, i: nat)
    requires i < |ids|
    ensures Distinct(ids, i + 1) <==> Distinct(ids, i) && ids[i] !in ids[..i]
  {
    if ids[i] in ids[..i] {
      var k :| 0 <= k < i && ids[..i][k] == ids[i];
      assert ids[k] == ids[i];
    } else {
      assert forall k :: 0 <= k < i ==> ids[..i][k] == ids[k];
    }
  }

  function ShortIds(key: nat, txs: seq<Tx>, shortId: (nat, nat) -> nat): (r: seq<nat>)
    ensures |r| == |txs| && forall i :: 0 <= i < |txs| ==> r[i] == shortId(key, txs[i].wtxid)
  {
    if txs == [] then [] else ShortIds(key, txs[..|txs| - 1], shortId) + [shortId(key, txs[|txs| - 1].wtxid)]
  }

  function SentInFull(vtx: seq<Tx>, proofOfStake: bool): nat {
    if proofOfStake && |vtx| > 1 then 2 else 1
  }

  /** The block's own encoding: the first transaction, and for proof of stake the second, in full. */
  function Encoding(header: nat, key: nat, vtx: seq<Tx>, proofOfStake: bool, shortId: (nat, nat) -> nat): Announcement
    requires |vtx| > 0
  {
    var n := SentInFull(vtx, proofOfStake);
    var full := if n == 1 then [Prefilled(0, vtx[0])] else [Prefilled(0, vtx[0]), Prefilled(0, vtx[1])];
    Announcement(header, key, ShortIds(key, vtx[n..], shortId), full)
  }

  /** In the block's own layout the prefilled transactions come first, then the open places in order. */
  lemma {:induction false} OwnLayout(header: nat, key: nat, vtx: seq<Tx>, proofOfStake: bool,
                                     shortId: (nat, nat) -> nat, t: Slots)
    requires |vtx| > 0
    requires var a := Encoding(header, key, vtx, proofOfStake, shortId); LaidOut(a.prefilled, |a.prefilled|, t) && |t| == TxCount(a)
    ensures |t| == |vtx|
    ensures var n := SentInFull(vtx, proofOfStake);
      && (forall p :: 0 <= p < n ==> t[p] == Some(vtx[p])) && (forall p :: n <= p < |vtx| ==> t[p].None?)
      && forall k :: 0 <= k < |Gaps(t)| ==> Gaps(t)[k] == n + k
  {
    var a, n := Encoding(header, key, vtx, proofOfStake, shortId), SentInFull(vtx, proofOfStake);
    var filled := Occupied(t);
    assert LastIndex(a.prefilled, 1) == 0 && StandsAt(a.prefilled, 0, t);
    if n == 2 {
      assert LastIndex(a.prefilled, 2) == 1 && StandsAt(a.prefilled, 1, t);
      assert 0 in filled && 1 in filled;
      SameSize({0, 1}, filled);
    } else {
      assert 0 in filled;
      SameSize({0}, filled);
    }
    forall p | n <= p < |vtx| ensures t[p].None? { assert p !in filled; }
    TailGaps(t, n);
  }

  lemma {:induction false} TailGaps(t: Slots, n: nat)
    requires n <= |t| && (forall p :: 0 <= p < n ==> t[p].Some?) && (forall p :: n <= p < |t| ==> t[p].None?)
    ensures |Gaps(t)| == |t| - n && forall k :: 0 <= k < |Gaps(t)| ==> Gaps(t)[k] == n + k
  {
    if |t| > n {
      TailGaps(t[..|t| - 1], n);
    } else if t != [] {
      TailGaps(t[..|t| - 1], n - 1);
    }
  }

  /** The open places are below 65536 exactly if there are at most that many transactions, although
      announcements of up to MAX_BLOCK_TXS are laid out. */
  lemma {:induction false} PlacesBelow(a: Announcement, t: Slots)
    requires WellPlaced(a) && |t| == TxCount(a) > 0
    requires forall p :: 0 <= p < |t| && LastIndex(a.prefilled, |a.prefilled|) < p ==> t[p].None?
    ensures (forall k :: 0 <= k < |Gaps(t)| ==> Gaps(t)[k] <= UINT16_MAX) <==> TxCount(a) <= UINT16_RANGE
  {
    GapsAre(t);
    hide Gaps, LastIndex;
    var n := |a.prefilled|;
    if TxCount(a) > UINT16_RANGE {
      var p := |t| - 1;
      if n > 0 { assert PlaceOk(a, n - 1); } else { NoPrefilled(a.prefilled); }
      assert p in Gaps(t);
      var k :| 0 <= k < |Gaps(t)| && Gaps(t)[k] == p;
    } else {
      assert forall k :: 0 <= k < |Gaps(t)| ==> Gaps(t)[k] in Gaps(t);
    }
  }

  lemma NoPrefilled(pre: seq<Prefilled>)
    ensures LastIndex(pre, 0) == -1
  {
  }

  lemma {:induction false} StoredIsPlace(a: Announcement, t: Slots, places: map<nat, nat>, k: nat)
    requires Stored(a, t, places, |a.shortIds|) && Distinct(a.shortIds, |a.shortIds|) && k < |a.shortIds|
    ensures a.shortIds[k] in places && places[a.shortIds[k]] == Low16(Gaps(t)[k])
  {
    hide Gaps, Low16;
    var id := a.shortIds[k];
    assert id in places;
  }

  /** The 16-bit places the short ids are mapped to are their open places exactly if the block has
      at most 65536 transactions; reading an announcement refuses more than 65535. */
  lemma {:induction false} PlacesFit(a: Announcement, t: Slots, places: map<nat, nat>)
    requires WellPlaced(a) && |t| == TxCount(a) > 0
    requires forall p :: 0 <= p < |t| && LastIndex(a.prefilled, |a.prefilled|) < p ==> t[p].None?
    requires Stored(a, t, places, |a.shortIds|) && |places| == |a.shortIds|
    ensures Positions(a, t, places, |a.shortIds|) <==> TxCount(a) <= UINT16_RANGE
  {
    PlacesBelow(a, t);
    hide Gaps, LastIndex, WellPlaced, Low16, Positions;
    if TxCount(a) <= UINT16_RANGE {
      StoredExactly(a, t, places);
    } else {
      var k :| 0 <= k < |Gaps(t)| && Gaps(t)[k] > UINT16_MAX;
      StoredIsPlace(a, t, places, k);
      Low16Keeps(Gaps(t)[k]);
      hide Stored;
      if Positions(a, t, places, |a.shortIds|) { PositionIsPlace(a, t, places, k); }
    }
  }

  lemma {:induction false} PositionIsPlace(a: Announcement, t: Slots, places: map<nat, nat>, k: nat)
    requires Positions(a, t, places, |a.shortIds|) && Distinct(a.shortIds, |a.shortIds|) && k < |a.shortIds|
    ensures a.shortIds[k] in places && places[a.shortIds[k]] == Gaps(t)[k]
  {
    hide Gaps;
    var id := a.shortIds[k];
    assert id in places;
  }

  lemma {:induction false} StoredExactly(a: Announcement, t: Slots, places: map<nat, nat>)
    requires Stored(a, t, places, |a.shortIds|) && forall k :: 0 <= k < |Gaps(t)| ==> Gaps(t)[k] <= UINT16_MAX
    ensures Positions(a, t, places, |a.shortIds|)
  {
    hide Gaps, Low16;
    forall k | 0 <= k < |Gaps(t)| ensures Low16(Gaps(t)[k]) == Gaps(t)[k] { Low16Keeps(Gaps(t)[k]); }
  }

  /** At most as many places are skipped before an open one as there are occupied ones. */
  lemma {:induction false} GapRoom(t: Slots, i: nat)
    requires i < |Gaps(t)|
    ensures Gaps(t)[i] - i <= |t| - |Gaps(t)|
    decreases |Gaps(t)| - i
  {
    GapsAre(t);
    if i == |Gaps(t)| - 1 {
      assert Gaps(t)[i] in Gaps(t);
    } else {
      GapRoom(t, i + 1);
    }
  }
}
