/** Rebuilding a block from its compact announcement, known transactions and the missing ones. */
module CompactBlocks {
  import opened Prelude
  import opened CompactLayout

  datatype ReadStatus = OK | INVALID | FAILED | CHECKBLOCK_FAILED

  /** A transaction at hand, under the witness hash it is filed by. */
  datatype Known = Known(wtxid: nat, tx: Tx)

  const SIZE_RANGE := 0x1_0000_0000_0000_0000

  /** A counter of 64 bits. */
  function Wrapped(x: int): nat { x % SIZE_RANGE }

  lemma WrapNext(x: int)
    ensures Wrapped(Wrapped(x) + 1) == Wrapped(x + 1) && Wrapped(Wrapped(x) - 1) == Wrapped(x - 1)
  {
    var q, r := x / SIZE_RANGE, Wrapped(x);
    assert x == q * SIZE_RANGE + r;
    hide Wrapped;
    var up, down := if r + 1 < SIZE_RANGE then 0 else 1, if r > 0 then 0 else 1;
    WrapIs(r + 1, up, r + 1 - up * SIZE_RANGE);
    WrapIs(x + 1, q + up, r + 1 - up * SIZE_RANGE);
    WrapIs(r - 1, -down, r - 1 + down * SIZE_RANGE);
    WrapIs(x - 1, q - down, r - 1 + down * SIZE_RANGE);
  }

  lemma WrapIs(x: int, q: int, r: int)
    requires x == q * SIZE_RANGE + r && 0 <= r < SIZE_RANGE
    ensures Wrapped(x) == r
  {
  }

  lemma WrapSmall(x: nat)
    requires x < SIZE_RANGE
    ensures Wrapped(x) == x
  {
  }

  /** Some transaction at hand matches the short id of open place p. */
  ghost predicate Justified(a: Announcement, t: Slots, shortId: (nat, nat) -> nat, known: seq<Known>, p: nat, tx: Tx) {
    |Gaps(t)| == |a.shortIds| && exists k: nat, j: nat ::
      k < |a.shortIds| && j < |known| && Gaps(t)[k] == p && a.shortIds[k] == shortId(a.key, known[j].wtxid) && known[j].tx == tx
  }

  /** The open places that have been filled. */
  ghost function Filled(t: Slots, avail: Slots): set<int>
    requires |avail| == |t|
  {
    set p | 0 <= p < |t| && t[p].None? && avail[p].Some?
  }

  /** While matching: prefilled places are untouched, filled ones are justified and marked. */
  ghost predicate Matching(a: Announcement, t: Slots, shortId: (nat, nat) -> nat, known: seq<Known>, avail: Slots,
                           have: seq<bool>, count: nat) {
    && |avail| == |t| == |have| && |Gaps(t)| == |a.shortIds| && count == |Filled(t, avail)|
    && (forall p :: 0 <= p < |t| && t[p].Some? ==> avail[p] == t[p])
    && (forall p :: 0 <= p < |t| && t[p].None? && avail[p].Some? ==> have[p] && Justified(a, t, shortId, known, p, avail[p].value))
  }

  lemma {:induction false} PlaceOf(a: Announcement, t: Slots, shortId: (nat, nat) -> nat, known: seq<Known>,
                                   places: map<nat, nat>, j: nat)
    requires Positions(a, t, places, |a.shortIds|) && j < |known| && shortId(a.key, known[j].wtxid) in places
    ensures var p := places[shortId(a.key, known[j].wtxid)]; p < |t| && t[p].None? && Justified(a, t, shortId, known, p, known[j].tx)
  {
    var id := shortId(a.key, known[j].wtxid);
    var p := places[id];
    var k :| 0 <= k < |a.shortIds| && a.shortIds[k] == id && p == Gaps(t)[k];
    GapsAre(t);
    hide Gaps;
    assert p in Gaps(t);
  }

  lemma {:induction false} MatchFill(a: Announcement, t: Slots, shortId: (nat, nat) -> nat, known: seq<Known>,
                                     avail: Slots, have: seq<bool>, count: nat,
                                     p: nat, tx: Tx)
    requires Matching(a, t, shortId, known, avail, have, count) && p < |t| && t[p].None? && !have[p]
    requires Justified(a, t, shortId, known, p, tx)
    ensures Matching(a, t, shortId, known, avail[p := Some(tx)], have[p := true], count + 1)
  {
    hide Justified, Gaps;
    FilledMore(t, avail, p, tx);
  }

  lemma {:induction false} FilledMore(t: Slots, avail: Slots, p: nat, tx: Tx)
    requires |avail| == |t| && p < |t| && t[p].None? && avail[p].None?
    ensures |Filled(t, avail[p := Some(tx)])| == |Filled(t, avail)| + 1
  {
    assert Filled(t, avail[p := Some(tx)]) == Filled(t, avail) + {p as int};
  }

  lemma {:induction false} MatchEmpty(a: Announcement, t: Slots, shortId: (nat, nat) -> nat, known: seq<Known>,
                                      avail: Slots, have: seq<bool>, count: nat, p: nat)
    requires Matching(a, t, shortId, known, avail, have, count) && p < |t| && t[p].None? && avail[p].Some?
    ensures count > 0 && Matching(a, t, shortId, known, avail[p := None], have, count - 1)
  {
    hide Justified, Gaps;
    assert p as int in Filled(t, avail);
    assert Filled(t, avail[p := None]) == Filled(t, avail) - {p as int};
  }

  lemma {:induction false} MatchOne(a: Announcement, t: Slots, shortId: (nat, nat) -> nat, known: seq<Known>,
                                    avail: Slots, have: seq<bool>, count: nat,
                                    places: map<nat, nat>, j: nat)
    requires Matching(a, t, shortId, known, avail, have, count) && Mapped(a, t, places)
    requires j < |known| && shortId(a.key, known[j].wtxid) in places
    ensures var p := places[shortId(a.key, known[j].wtxid)];
      && p < |t| == |avail| == |have|
      && (!have[p] ==> Matching(a, t, shortId, known, avail[p := Some(known[j].tx)], have[p := true], count + 1))
      && (avail[p].Some? ==> count > 0 && Matching(a, t, shortId, known, avail[p := None], have, count - 1))
  {
    hide Matching, Positions, Justified;
    PlaceOf(a, t, shortId, known, places, j);
    MatchShape(a, t, shortId, known, avail, have, count);
    var p := places[shortId(a.key, known[j].wtxid)];
    if !have[p] { MatchFill(a, t, shortId, known, avail, have, count, p, known[j].tx); }
    if avail[p].Some? { MatchEmpty(a, t, shortId, known, avail, have, count, p); }
  }

  // ---------- What a place ends up with ----------

  predicate Uncrowded(ids: seq<nat>, n: nat, crowded: seq<nat> -> bool)
    requires n <= |ids|
  {
    forall i :: 0 < i <= n ==> !crowded(ids[..i])
  }

  /** The short ids differ and each is mapped to its own open place. */
  ghost predicate Mapped(a: Announcement, t: Slots, places: map<nat, nat>) {
    Positions(a, t, places, |a.shortIds|) && Distinct(a.shortIds, |a.shortIds|) && |places| == |a.shortIds|
  }

  /** The transactions among `known` that match a short id, in order. */
  function Matches(key: nat, shortId: (nat, nat) -> nat, known: seq<Known>, id: nat): seq<Tx> {
    if known == [] then [] else
    var n := |known| - 1;
    Matches(key, shortId, known[..n], id) + if shortId(key, known[n].wtxid) == id then [known[n].tx] else []
  }

  /** What is put into a place: the first match, unless the pool has a second one or an extra match differs. */
  function Choice(ps: seq<Tx>, es: seq<Tx>): Option<Tx> {
    if ps + es != [] && |ps| <= 1 && (forall e :: e in es ==> e.wtxid == (ps + es)[0].wtxid) then Some((ps + es)[0]) else None
  }

  ghost predicate SettledAt(a: Announcement, t: Slots, shortId: (nat, nat) -> nat, pool: seq<Known>, extra: seq<Known>,
                            avail: Slots, have: seq<bool>, k: nat)
    requires k < |a.shortIds| == |Gaps(t)| && |avail| == |t| == |have|
  {
    var p, ps, es := Gaps(t)[k], Matches(a.key, shortId, pool, a.shortIds[k]), Matches(a.key, shortId, extra, a.shortIds[k]);
    p < |t| && avail[p] == Choice(ps, es) && (have[p] <==> ps + es != [])
  }

  /** Every open place holds what its matches in the pool and the extra transactions decide. */
  ghost predicate Settled(a: Announcement, t: Slots, shortId: (nat, nat) -> nat, pool: seq<Known>, extra: seq<Known>,
                          avail: Slots, have: seq<bool>) {
    && |a.shortIds| == |Gaps(t)| && |avail| == |t| == |have|
    && forall k :: 0 <= k < |a.shortIds| ==> SettledAt(a, t, shortId, pool, extra, avail, have, k)
  }

  /** Every short id has found its transaction. */
  ghost predicate AllFound(a: Announcement, shortId: (nat, nat) -> nat, pool: seq<Known>, extra: seq<Known>) {
    forall k :: 0 <= k < |a.shortIds| ==>
      Choice(Matches(a.key, shortId, pool, a.shortIds[k]), Matches(a.key, shortId, extra, a.shortIds[k])).Some?
  }

  /** The layout, the marks, and how much of the pool and of the extra transactions was looked at. */
  datatype Scan = Scan(t: Slots, have: seq<bool>, pool: nat, extra: nat)

  /** Nothing was left out unless every short id had found its transaction. */
  ghost predicate Scanned(a: Announcement, shortId: (nat, nat) -> nat, pool: seq<Known>, extra: seq<Known>,
                          scan: Scan) {
    && scan.pool <= |pool| && (scan.pool == |pool| || AllFound(a, shortId, pool[..scan.pool], []))
    && scan.extra <= |extra| && (scan.extra == |extra| || AllFound(a, shortId, pool[..scan.pool], extra[..scan.extra]))
  }

  lemma MappedGaps(a: Announcement, t: Slots, places: map<nat, nat>)
    requires Mapped(a, t, places)
    ensures |Gaps(t)| == |a.shortIds|
  {
  }

  lemma MatchesNext(key: nat, shortId: (nat, nat) -> nat, known: seq<Known>, x: Known, id: nat)
    ensures Matches(key, shortId, known + [x], id) ==
            if shortId(key, x.wtxid) == id then Matches(key, shortId, known, id) + [x.tx] else Matches(key, shortId, known, id)
  {
    assert (known + [x])[..|known|] == known;
  }

  lemma {:induction false} SettledNone(a: Announcement, t: Slots, shortId: (nat, nat) -> nat, have: seq<bool>)
    requires |Gaps(t)| == |a.shortIds| && |have| == |t| && forall p :: 0 <= p < |t| ==> !have[p]
    ensures Settled(a, t, shortId, [], [], t, have)
  {
    GapsAre(t);
    hide Gaps;
    forall k | 0 <= k < |a.shortIds| ensures SettledAt(a, t, shortId, [], [], t, have, k) {
      assert Gaps(t)[k] in Gaps(t);
    }
  }

  // A change at one open place, as its matches demand, when no other place's matches change.
  lemma {:induction false} SettledPut(a: Announcement, t: Slots, shortId: (nat, nat) -> nat, pool: seq<Known>,
                                      extra: seq<Known>,
                                      pool': seq<Known>, extra': seq<Known>, avail: Slots, have: seq<bool>, k: nat)
    requires Settled(a, t, shortId, pool, extra, avail, have) && k < |a.shortIds|
    requires forall j :: 0 <= j < |a.shortIds| && j != k ==>
      && Matches(a.key, shortId, pool', a.shortIds[j]) == Matches(a.key, shortId, pool, a.shortIds[j])
      && Matches(a.key, shortId, extra', a.shortIds[j]) == Matches(a.key, shortId, extra, a.shortIds[j])
    requires Matches(a.key, shortId, pool', a.shortIds[k]) + Matches(a.key, shortId, extra', a.shortIds[k]) != []
    ensures Gaps(t)[k] < |t|
    ensures var p, ps, es := Gaps(t)[k], Matches(a.key, shortId, pool', a.shortIds[k]), Matches(a.key, shortId, extra', a.shortIds[k]);
      Settled(a, t, shortId, pool', extra', avail[p := Choice(ps, es)], have[p := true])
  {
    GapsAre(t);
    hide Gaps, Matches, Choice;
    assert SettledAt(a, t, shortId, pool, extra, avail, have, k);
    var p, ps, es := Gaps(t)[k], Matches(a.key, shortId, pool', a.shortIds[k]), Matches(a.key, shortId, extra', a.shortIds[k]);
    var avail', have' := avail[p := Choice(ps, es)], have[p := true];
    forall j | 0 <= j < |a.shortIds| ensures SettledAt(a, t, shortId, pool', extra', avail', have', j) {
      assert SettledAt(a, t, shortId, pool, extra, avail, have, j);
      assert j != k ==> Gaps(t)[j] != p;
    }
  }

  lemma {:induction false} MatchedPlace(a: Announcement, t: Slots, places: map<nat, nat>, id: nat) returns (k: nat)
    requires Mapped(a, t, places) && id in places
    ensures |Gaps(t)| == |a.shortIds| && k < |a.shortIds| && a.shortIds[k] == id && places[id] == Gaps(t)[k]
    ensures forall j :: 0 <= j < |a.shortIds| && j != k ==> a.shortIds[j] != id
  {
    hide Gaps;
    k :| 0 <= k < |a.shortIds| && a.shortIds[k] == id && places[id] == Gaps(t)[k];
  }

  /** One more transaction of the pool. */
  lemma {:induction false} SettlePool(a: Announcement, t: Slots, shortId: (nat, nat) -> nat, pool: seq<Known>,
                                      avail: Slots, have: seq<bool>,
                                      places: map<nat, nat>, x: Known)
    requires Mapped(a, t, places) && Settled(a, t, shortId, pool, [], avail, have) && shortId(a.key, x.wtxid) in places
    ensures var p := places[shortId(a.key, x.wtxid)];
      && p < |t| == |avail| == |have|
      && Settled(a, t, shortId, pool + [x], [], avail[p := if have[p] then None else Some(x.tx)], have[p := true])
  {
    var id := shortId(a.key, x.wtxid);
    var k := MatchedPlace(a, t, places, id);
    forall j | 0 <= j < |a.shortIds| { MatchesNext(a.key, shortId, pool, x, a.shortIds[j]); }
    hide Gaps, Mapped;
    assert SettledAt(a, t, shortId, pool, [], avail, have, k);
    SettledPut(a, t, shortId, pool, [], pool + [x], [], avail, have, k);
    SecondMatch(Matches(a.key, shortId, pool, id), x.tx);
  }

  lemma SecondMatch(ps: seq<Tx>, x: Tx)
    ensures Choice(ps + [x], []) == if ps == [] then Some(x) else None
  {
  }

  /** One more extra transaction. */
  lemma {:induction false} SettleExtra(a: Announcement, t: Slots, shortId: (nat, nat) -> nat, pool: seq<Known>,
                                       extra: seq<Known>,
                                       avail: Slots, have: seq<bool>, places: map<nat, nat>, x: Known)
    requires Mapped(a, t, places) && Settled(a, t, shortId, pool, extra, avail, have)
    requires shortId(a.key, x.wtxid) in places
    ensures var p := places[shortId(a.key, x.wtxid)];
      && p < |t| == |avail| == |have|
      && Settled(a, t, shortId, pool, extra + [x],
              avail[p := if !have[p] then Some(x.tx)
                         else if avail[p].Some? && avail[p].value.wtxid != x.tx.wtxid then None else avail[p]], have[p := true])
  {
    var id := shortId(a.key, x.wtxid);
    var k := MatchedPlace(a, t, places, id);
    forall j | 0 <= j < |a.shortIds| { MatchesNext(a.key, shortId, extra, x, a.shortIds[j]); }
    hide Gaps, Mapped;
    assert SettledAt(a, t, shortId, pool, extra, avail, have, k);
    SettledPut(a, t, shortId, pool, extra, pool, extra + [x], avail, have, k);
    AnotherMatch(Matches(a.key, shortId, pool, id), Matches(a.key, shortId, extra, id), x.tx);
  }

  lemma {:induction false} AnotherMatch(ps: seq<Tx>, es: seq<Tx>, x: Tx)
    ensures Choice(ps, es + [x]) ==
      if ps + es == [] then Some(x)
      else if Choice(ps, es).Some? && Choice(ps, es).value.wtxid != x.wtxid then None else Choice(ps, es)
  {
    assert ps + (es + [x]) == ps + es + [x];
    if ps + es == [] {
      assert ps + (es + [x]) == [x] && es + [x] == [x];
    } else {
      assert (ps + (es + [x]))[0] == (ps + es)[0];
      assert x in es + [x] && forall e :: e in es ==> e in es + [x];
    }
  }

  /** A transaction that matches no short id changes nothing. */
  lemma {:induction false} SettledStill(a: Announcement, t: Slots, shortId: (nat, nat) -> nat, pool: seq<Known>,
                                        extra: seq<Known>,
                                        avail: Slots, have: seq<bool>, places: map<nat, nat>, x: Known)
    requires Mapped(a, t, places) && Settled(a, t, shortId, pool, extra, avail, have)
    requires shortId(a.key, x.wtxid) !in places
    ensures Settled(a, t, shortId, pool + [x], extra, avail, have)
    ensures Settled(a, t, shortId, pool, extra + [x], avail, have)
  {
    hide Gaps, Choice;
    forall k | 0 <= k < |a.shortIds|
      ensures SettledAt(a, t, shortId, pool + [x], extra, avail, have, k)
      ensures SettledAt(a, t, shortId, pool, extra + [x], avail, have, k)
    {
      assert SettledAt(a, t, shortId, pool, extra, avail, have, k);
      assert a.shortIds[k] in places;
      MatchesNext(a.key, shortId, pool, x, a.shortIds[k]);
      MatchesNext(a.key, shortId, extra, x, a.shortIds[k]);
    }
  }

  /** As many filled places as short ids: every short id has found its transaction. */
  lemma {:induction false} AllFilled(a: Announcement, t: Slots, shortId: (nat, nat) -> nat, known: seq<Known>,
                                     avail: Slots, have: seq<bool>,
                                     count: nat, places: map<nat, nat>, pool: seq<Known>, extra: seq<Known>)
    requires Mapped(a, t, places) && Matching(a, t, shortId, known, avail, have, count) && count == |places|
    requires Settled(a, t, shortId, pool, extra, avail, have)
    ensures AllFound(a, shortId, pool, extra)
  {
    FilledGaps(t, avail);
    hide Gaps, Justified, Choice, Matches, Filled;
    forall k | 0 <= k < |a.shortIds|
      ensures Choice(Matches(a.key, shortId, pool, a.shortIds[k]), Matches(a.key, shortId, extra, a.shortIds[k])).Some?
    {
      assert SettledAt(a, t, shortId, pool, extra, avail, have, k);
    }
  }

  lemma {:induction false} FilledGaps(t: Slots, avail: Slots)
    requires |avail| == |t|
    ensures |Filled(t, avail)| == |Gaps(t)| ==> forall k :: 0 <= k < |Gaps(t)| ==> Gaps(t)[k] < |avail| && avail[Gaps(t)[k]].Some?
  {
    GapsAre(t);
    GapsCount(t);
    hide Gaps;
    var open := set p | 0 <= p < |t| && t[p].None?;
    OpenSize(t, open);
    if |Filled(t, avail)| == |Gaps(t)| {
      SameSize(Filled(t, avail), open);
      forall k | 0 <= k < |Gaps(t)| ensures Gaps(t)[k] < |avail| && avail[Gaps(t)[k]].Some? {
        assert Gaps(t)[k] in Gaps(t);
        assert Gaps(t)[k] as int in open;
      }
    }
  }

  lemma {:induction false} OpenSize(t: Slots, open: set<int>)
    requires open == set p | 0 <= p < |t| && t[p].None?
    ensures |open| == |Gaps(t)|
  {
    if t == [] {
      assert open == {};
    } else {
      var n := |t| - 1;
      var u := t[..n];
      var below := set p | 0 <= p < |u| && u[p].None?;
      OpenSize(u, below);
      assert open == below + if t[n].None? then {n} else {};
    }
  }

  class PartiallyDownloadedBlock {
    var header: nat
    var txnAvailable: Slots
    var prefilledCount: nat
    var mempoolCount: nat
    var extraCount: nat

    constructor ()
      ensures header == 0 && txnAvailable == [] && mempoolCount == 0 && extraCount == 0
    {
      header, txnAvailable := 0, [];
      prefilledCount, mempoolCount, extraCount := 0, 0, 0;
    }

    /** Puts the prefilled transactions at their places, if all of them have one. */
    method PlacePrefilled(a: Announcement) returns (ok: bool)
      requires Readable(a)
      modifies this`txnAvailable
      ensures ok <==> WellPlaced(a)
      ensures ok ==> |txnAvailable| == TxCount(a) && LaidOut(a.prefilled, |a.prefilled|, txnAvailable)
      ensures ok ==> forall p :: 0 <= p < |txnAvailable| && LastIndex(a.prefilled, |a.prefilled|) < p ==> txnAvailable[p].None?
    {
      hide LaidOut, LastIndex;
      txnAvailable := seq(TxCount(a), _ => None);
      LaidOutNone(a.prefilled, txnAvailable);
      var last := -1;
      for i := 0 to |a.prefilled|
        invariant |txnAvailable| == TxCount(a) && last == LastIndex(a.prefilled, i) && -1 <= last <= UINT16_MAX
        invariant LaidOut(a.prefilled, i, txnAvailable) && forall p :: last < p < |txnAvailable| ==> txnAvailable[p].None?
        invariant forall k :: 0 <= k < i ==> PlaceOk(a, k)
      {
        LastIndexNext(a.prefilled, i);
        if a.prefilled[i].tx.isNull {
          assert !PlaceOk(a, i);
          return false;
        }
        last := last + a.prefilled[i].index + 1;
        if last > UINT16_MAX {
          assert !PlaceOk(a, i);
          return false;
        }
        if last > |a.shortIds| + i {
          assert !PlaceOk(a, i);
          return false;
        }
        LaidOutNext(a.prefilled, i, txnAvailable);
        txnAvailable := txnAvailable[last := Some(a.prefilled[i].tx)];
      }
      ok := true;
    }

    /** Maps every short id to its open place, in 16 bits. The offset, of 16 bits as well, does not
        wrap as long as that many transactions are prefilled. `crowded` says after which short ids
        the bucket of the last one is too full. */
    method MapShortIds(a: Announcement, crowded: seq<nat> -> bool) returns (ok: bool, places: map<nat, nat>)
      requires |Gaps(txnAvailable)| == |a.shortIds| && |txnAvailable| == TxCount(a) && |a.prefilled| <= UINT16_MAX
      ensures ok <==> Distinct(a.shortIds, |a.shortIds|) && Uncrowded(a.shortIds, |a.shortIds|, crowded)
      ensures ok ==> Stored(a, txnAvailable, places, |a.shortIds|) && |places| == |a.shortIds|
    {
      hide Gaps, Filed, Distinct;
      var t := txnAvailable;
      places := map[];
      StoredNone(a, t);
      var offset := 0;
      for i := 0 to |a.shortIds|
        invariant Stored(a, t, places, i) && Uncrowded(a.shortIds, i, crowded)
        invariant 0 <= offset <= UINT16_MAX && i + offset == (if i == 0 then 0 else Gaps(t)[i - 1] + 1)
      {
        offset := SkipTaken(t, i, offset);
        StoredNext(a, t, places, i);
        places := places[a.shortIds[i] := Low16(i + offset)];
        if crowded(a.shortIds[..i + 1]) {
          return false, places;
        }
      }
      ok := |places| == |a.shortIds|;
    }

    /** Fills open places from the pool; a second match empties the place again. The scan ends early
        only when every open place is filled. */
    method MatchPool(a: Announcement, places: map<nat, nat>, pool: seq<Known>, shortId: (nat, nat) -> nat,
                     ghost t: Slots, ghost known: seq<Known>) returns (have: seq<bool>, ghost m: nat)
      requires Mapped(a, t, places) && txnAvailable == t && mempoolCount == 0 && pool <= known
      modifies this`txnAvailable, this`mempoolCount
      ensures Matching(a, t, shortId, known, txnAvailable, have, mempoolCount)
      ensures m <= |pool| && Settled(a, t, shortId, pool[..m], [], txnAvailable, have)
      ensures m == |pool| || AllFound(a, shortId, pool[..m], [])
    {
      hide Matching, Mapped, Settled, AllFound;
      have := seq(|txnAvailable|, _ => false);
      MappedGaps(a, t, places);
      MatchNone(a, t, shortId, known, have);
      SettledNone(a, t, shortId, have);
      for i := 0 to |pool|
        invariant Matching(a, t, shortId, known, txnAvailable, have, mempoolCount)
        invariant Settled(a, t, shortId, pool[..i], [], txnAvailable, have)
      {
        m := i + 1;
        var id := shortId(a.key, pool[i].wtxid);
        assert pool[..i + 1] == pool[..i] + [pool[i]];
        if id in places {
          assert pool[i] == known[i];
          MatchOne(a, t, shortId, known, txnAvailable, have, mempoolCount, places, i);
          SettlePool(a, t, shortId, pool[..i], txnAvailable, have, places, pool[i]);
          var p := places[id];
          ghost var settled := txnAvailable[p := if have[p] then None else Some(pool[i].tx)];
          ghost var marked := have[p := true];
          if !have[p] {
            txnAvailable := txnAvailable[p := Some(pool[i].tx)];
            have := have[p := true];
            mempoolCount := mempoolCount + 1;
          } else if txnAvailable[p].Some? {
            txnAvailable := txnAvailable[p := None];
            mempoolCount := mempoolCount - 1;
          }
          assert txnAvailable == settled && have == marked;
        } else {
          SettledStill(a, t, shortId, pool[..i], [], txnAvailable, have, places, pool[i]);
        }
        if mempoolCount == |places| {
          AllFilled(a, t, shortId, known, txnAvailable, have, mempoolCount, places, pool[..i + 1], []);
          return;
        }
      }
      m := |pool|;
      assert pool[..|pool|] == pool;
    }

    /** The same for extra transactions; only a different transaction counts as a second match. The
        extra counter follows the other one, in 64 bits. */
    method MatchExtra(a: Announcement, places: map<nat, nat>, extra: seq<Known>, shortId: (nat, nat) -> nat,
                      have0: seq<bool>,
                      ghost t: Slots, ghost known: seq<Known>, ghost first: nat, ghost pool: seq<Known>)
        returns (have: seq<bool>, ghost m: nat)
      requires Mapped(a, t, places) && Matching(a, t, shortId, known, txnAvailable, have0, mempoolCount)
      requires Settled(a, t, shortId, pool, [], txnAvailable, have0) && extraCount < SIZE_RANGE
      requires first + |extra| <= |known| && known[first..first + |extra|] == extra
      modifies this`txnAvailable, this`mempoolCount, this`extraCount
      ensures Matching(a, t, shortId, known, txnAvailable, have, mempoolCount)
      ensures m <= |extra| && Settled(a, t, shortId, pool, extra[..m], txnAvailable, have)
      ensures m == |extra| || AllFound(a, shortId, pool, extra[..m])
      ensures extraCount == Wrapped(old(extraCount) + mempoolCount - old(mempoolCount))
    {
      hide Matching, Mapped, Settled, AllFound, Wrapped;
      have := have0;
      WrapSmall(extraCount);
      for i := 0 to |extra|
        invariant Matching(a, t, shortId, known, txnAvailable, have, mempoolCount)
        invariant Settled(a, t, shortId, pool, extra[..i], txnAvailable, have)
        invariant extraCount == Wrapped(old(extraCount) + mempoolCount - old(mempoolCount))
      {
        m := i + 1;
        WrapNext(old(extraCount) + mempoolCount - old(mempoolCount));
        var id := shortId(a.key, extra[i].wtxid);
        assert extra[..i + 1] == extra[..i] + [extra[i]];
        if id in places {
          assert extra[i] == known[first + i];
          MatchOne(a, t, shortId, known, txnAvailable, have, mempoolCount, places, first + i);
          SettleExtra(a, t, shortId, pool, extra[..i], txnAvailable, have, places, extra[i]);
          var p := places[id];
          ghost var settled := txnAvailable[p := if !have[p] then Some(extra[i].tx)
            else if txnAvailable[p].Some? && txnAvailable[p].value.wtxid != extra[i].tx.wtxid then None else txnAvailable[p]];
          ghost var marked := have[p := true];
          if !have[p] {
            txnAvailable := txnAvailable[p := Some(extra[i].tx)];
            have := have[p := true];
            mempoolCount := mempoolCount + 1;
            extraCount := Wrapped(extraCount + 1);
          } else if txnAvailable[p].Some? && txnAvailable[p].value.wtxid != extra[i].tx.wtxid {
            txnAvailable := txnAvailable[p := None];
            mempoolCount := mempoolCount - 1;
            extraCount := Wrapped(extraCount - 1);
          }
          assert txnAvailable == settled && have == marked;
        } else {
          SettledStill(a, t, shortId, pool, extra[..i], txnAvailable, have, places, extra[i]);
        }
        if mempoolCount == |places| {
          AllFilled(a, t, shortId, known, txnAvailable, have, mempoolCount, places, pool, extra[..i + 1]);
          return;
        }
      }
      m := |extra|;
      assert extra[..|extra|] == extra;
    }

    /** Lays the announcement out and fills what is at hand. */
    method InitData(a: Announcement, pool: seq<Known>, extra: seq<Known>, shortId: (nat, nat) -> nat,
                    crowded: seq<nat> -> bool)
        returns (status: ReadStatus, ghost scan: Scan)
      requires Readable(a) && mempoolCount == 0 && extraCount == 0
      modifies this
      ensures status == INVALID <==>
        || a.header == 0 || TxCount(a) == 0 || TxCount(a) > MAX_BLOCK_TXS || old(header != 0 || txnAvailable != [])
        || !WellPlaced(a)
      ensures status == OK <==>
        status != INVALID && Distinct(a.shortIds, |a.shortIds|) && Uncrowded(a.shortIds, |a.shortIds|, crowded)
      ensures status != CHECKBLOCK_FAILED
      ensures status == OK ==>
        && header == a.header && |scan.t| == TxCount(a) && LaidOut(a.prefilled, |a.prefilled|, scan.t)
        && Matching(a, scan.t, shortId, pool + extra, txnAvailable, scan.have, mempoolCount)
        && Scanned(a, shortId, pool, extra, scan)
        && Settled(a, scan.t, shortId, pool[..scan.pool], extra[..scan.extra], txnAvailable, scan.have)
    {
      hide LaidOut, Matching, Gaps, Positions, Stored, LastIndex, WellPlaced, Distinct, Settled, AllFound, Uncrowded;
      scan := Scan([], [], 0, 0);
      if a.header == 0 || (a.shortIds == [] && a.prefilled == []) || |a.shortIds| + |a.prefilled| > MAX_BLOCK_TXS ||
         header != 0 || txnAvailable != [] {
        return INVALID, scan;
      }
      header := a.header;
      var ok := PlacePrefilled(a);
      if !ok {
        return INVALID, scan;
      }
      prefilledCount := |a.prefilled|;
      ghost var t := txnAvailable;
      OnePlaceEach(a, t);
      var places;
      ok, places := MapShortIds(a, crowded);
      if !ok {
        return FAILED, scan;
      }
      PlacesFit(a, t, places);
      var marks, m := MatchPool(a, places, pool, shortId, t, pool + extra);
      var final, j := MatchExtra(a, places, extra, shortId, marks, t, pool + extra, |pool|, pool[..m]);
      scan := Scan(t, final, m, j);
      status := OK;
    }

    /** Completes the block with the missing transactions in order, once. With too few of them the
        transactions before the first unfilled place are gone as well. */
    method FillBlock(missing: seq<Tx>, valid: bool, mutated: bool) returns (status: ReadStatus, vtx: seq<Tx>)
      modifies this`header, this`txnAvailable
      ensures old(header) == 0 ==> status == INVALID && header == 0 && txnAvailable == old(txnAvailable)
      ensures old(header) != 0 && |missing| < |Gaps(old(txnAvailable))| ==>
        && status == INVALID && header == old(header) && |txnAvailable| == |old(txnAvailable)|
        && forall p :: 0 <= p < |txnAvailable| ==>
             txnAvailable[p] == if p < Gaps(old(txnAvailable))[|missing|] then None else old(txnAvailable)[p]
      ensures old(header) != 0 && |missing| >= |Gaps(old(txnAvailable))| ==> header == 0 && txnAvailable == []
      ensures old(header) != 0 && |missing| > |Gaps(old(txnAvailable))| ==> status == INVALID
      ensures old(header) != 0 && |missing| == |Gaps(old(txnAvailable))| ==>
        && Merged(old(txnAvailable), missing, vtx)
        && status == if valid then OK else if mutated then FAILED else CHECKBLOCK_FAILED
    {
      hide Gaps;
      vtx := [];
      if header == 0 {
        return INVALID, [];
      }
      ghost var avail := txnAvailable;
      GapsAre(avail);
      NoGaps(avail[..0]);
      var offset := 0;
      for i := 0 to |txnAvailable|
        invariant |txnAvailable| == |avail| && header == old(header)
        invariant forall p :: 0 <= p < |avail| ==> txnAvailable[p] == if p < i then None else avail[p]
        invariant offset == |Gaps(avail[..i])| <= |missing| && Merged(avail[..i], missing[..offset], vtx)
      {
        GapsPrefix(avail, i);
        MergedNext(avail, i, missing, vtx);
        if txnAvailable[i].None? {
          if |missing| <= offset {
            return INVALID, vtx;
          }
          vtx := vtx + [missing[offset]];
          offset := offset + 1;
        } else {
          vtx := vtx + [txnAvailable[i].value];
          txnAvailable := txnAvailable[i := None];
        }
      }
      assert avail[..|avail|] == avail;
      header := 0;
      txnAvailable := [];
      if |missing| != offset {
        return INVALID, vtx;
      }
      assert missing[..offset] == missing;
      status := if valid then OK else if mutated then FAILED else CHECKBLOCK_FAILED;
    }
  }

  /** The offset of the i-th open place, found from that of the place after the one before it. */
  method SkipTaken(t: Slots, i: nat, start: nat) returns (offset: nat)
    requires i < |Gaps(t)| && |t| - |Gaps(t)| <= UINT16_MAX && i + start == (if i == 0 then 0 else Gaps(t)[i - 1] + 1)
    ensures i + offset == Gaps(t)[i] && offset <= UINT16_MAX
  {
    hide Gaps, Low16;
    offset := start;
    GapsAre(t);
    GapOffset(t, i);
    GapRoom(t, i);
    assert Gaps(t)[i] in Gaps(t);
    while t[i + offset].Some?
      invariant i + start <= i + offset <= Gaps(t)[i] && forall p :: i + start <= p < i + offset ==> t[p].Some?
      decreases Gaps(t)[i] - offset
    {
      Low16Keeps(offset + 1);
      offset := Low16(offset + 1);
    }
    FirstGap(t, i, i + start, i + offset);
  }

  /** The available transactions in their places and the missing ones in the gaps, in order. */
  ghost predicate Merged(avail: Slots, missing: seq<Tx>, vtx: seq<Tx>) {
    && |vtx| == |avail| && |missing| == |Gaps(avail)|
    && (forall p :: 0 <= p < |avail| && avail[p].Some? ==> vtx[p] == avail[p].value)
    && (forall k :: 0 <= k < |missing| ==> 0 <= Gaps(avail)[k] < |vtx| && vtx[Gaps(avail)[k]] == missing[k])
  }

  lemma NoGaps(t: Slots)
    requires t == []
    ensures Gaps(t) == []
  {
  }

  lemma {:induction false} GapsPrefix(t: Slots, i: nat)
    requires i < |t|
    ensures Gaps(t[..i]) <= Gaps(t)
    ensures Gaps(t[..i + 1]) == Gaps(t[..i]) + if t[i].None? then [i] else []
    ensures t[i].None? ==> |Gaps(t[..i])| < |Gaps(t)| && Gaps(t)[|Gaps(t[..i])|] == i
  {
    assert t[..i + 1][..i] == t[..i];
    GapsExtend(t, i);
    GapsExtend(t, i + 1);
  }

  lemma {:induction false} GapsExtend(t: Slots, i: nat)
    requires i <= |t|
    ensures Gaps(t[..i]) <= Gaps(t)
  {
    if i == |t| {
      assert t[..i] == t;
    } else {
      GapsExtend(t[..|t| - 1], i);
      assert t[..|t| - 1][..i] == t[..i];
    }
  }

  lemma {:induction false} MergedTaken(avail: Slots, missing: seq<Tx>, vtx: seq<Tx>, slot: Option<Tx>)
    requires Merged(avail, missing, vtx) && slot.Some? && Gaps(avail + [slot]) == Gaps(avail)
    ensures Merged(avail + [slot], missing, vtx + [slot.value])
  {
    hide Gaps;
  }

  lemma {:induction false} MergedMissing(avail: Slots, missing: seq<Tx>, vtx: seq<Tx>, tx: Tx)
    requires Merged(avail, missing, vtx) && Gaps(avail + [None]) == Gaps(avail) + [|avail|]
    ensures Merged(avail + [None], missing + [tx], vtx + [tx])
  {
    hide Gaps;
  }

  lemma {:induction false} MergedNext(avail: Slots, i: nat, missing: seq<Tx>, vtx: seq<Tx>)
    requires i < |avail| && |Gaps(avail[..i])| <= |missing|
    requires Merged(avail[..i], missing[..|Gaps(avail[..i])|], vtx)
    ensures avail[i].Some? ==> Merged(avail[..i + 1], missing[..|Gaps(avail[..i])|], vtx + [avail[i].value])
    ensures avail[i].None? && |Gaps(avail[..i])| < |missing| ==>
      Merged(avail[..i + 1], missing[..|Gaps(avail[..i])| + 1], vtx + [missing[|Gaps(avail[..i])|]])
  {
    GapsPrefix(avail, i);
    hide Gaps, Merged;
    var m := |Gaps(avail[..i])|;
    assert avail[..i + 1] == avail[..i] + [avail[i]];
    if avail[i].Some? {
      MergedTaken(avail[..i], missing[..m], vtx, avail[i]);
    } else if m < |missing| {
      assert missing[..m + 1] == missing[..m] + [missing[m]];
      MergedMissing(avail[..i], missing[..m], vtx, missing[m]);
    }
  }

  // ---------- Rebuilding a block from its own encoding ----------

  /** A transaction at hand that matches a short id of the block is the one meant. */
  ghost predicate Genuine(vtx: seq<Tx>, n: nat, key: nat, shortId: (nat, nat) -> nat, known: seq<Known>) {
    forall j, p :: 0 <= j < |known| && n <= p < |vtx| && shortId(key, known[j].wtxid) == shortId(key, vtx[p].wtxid) ==>
      known[j].tx == vtx[p]
  }

  /** Whatever is available is the block's transaction at that place. */
  lemma {:induction false} AvailableIsRight(header: nat, key: nat, vtx: seq<Tx>, proofOfStake: bool,
                                            shortId: (nat, nat) -> nat, t: Slots,
                                            known: seq<Known>, avail: Slots, have: seq<bool>, count: nat)
    requires |vtx| > 0 && Genuine(vtx, SentInFull(vtx, proofOfStake), key, shortId, known)
    requires var a := Encoding(header, key, vtx, proofOfStake, shortId);
      |t| == TxCount(a) && LaidOut(a.prefilled, |a.prefilled|, t) && Matching(a, t, shortId, known, avail, have, count)
    ensures |avail| == |vtx| && forall p :: 0 <= p < |vtx| && avail[p].Some? ==> avail[p].value == vtx[p]
  {
    var a, n := Encoding(header, key, vtx, proofOfStake, shortId), SentInFull(vtx, proofOfStake);
    OwnLayout(header, key, vtx, proofOfStake, shortId, t);
    hide LaidOut, Gaps;
    forall p | 0 <= p < |vtx| && avail[p].Some? ensures avail[p].value == vtx[p] {
      if p >= n {
        var k: nat, j: nat :| k < |a.shortIds| && j < |known| && Gaps(t)[k] == p &&
          a.shortIds[k] == shortId(a.key, known[j].wtxid) && known[j].tx == avail[p].value;
        assert a.shortIds[k] == shortId(key, vtx[p].wtxid);
      }
    }
  }

  /** The transactions still to be requested, in order. */
  ghost predicate IsMissing(vtx: seq<Tx>, avail: Slots, missing: seq<Tx>) {
    |avail| == |vtx| && |missing| == |Gaps(avail)|
    && forall k :: 0 <= k < |missing| ==> Gaps(avail)[k] < |vtx| && missing[k] == vtx[Gaps(avail)[k]]
  }

  lemma {:induction false} MergedIsBlock(vtx: seq<Tx>, avail: Slots, missing: seq<Tx>, r: seq<Tx>)
    requires IsMissing(vtx, avail, missing) && Merged(avail, missing, r)
    requires forall p :: 0 <= p < |vtx| && avail[p].Some? ==> avail[p].value == vtx[p]
    ensures r == vtx
  {
    GapsAre(avail);
    hide Gaps;
    forall p | 0 <= p < |vtx| ensures r[p] == vtx[p] {
      if avail[p].None? {
        assert p in Gaps(avail);
        var k :| 0 <= k < |Gaps(avail)| && Gaps(avail)[k] == p;
      }
    }
  }

  /** Announce, lay out, request what is missing, fill in: the transaction list is the block's. */
  method Relay(header: nat, key: nat, vtx: seq<Tx>, proofOfStake: bool, pool: seq<Known>, extra: seq<Known>,
               shortId: (nat, nat) -> nat,
               crowded: seq<nat> -> bool, valid: bool, mutated: bool) returns (laidOut: ReadStatus, filled: ReadStatus, result: seq<Tx>)
    requires 0 < |vtx| <= UINT16_MAX && Genuine(vtx, SentInFull(vtx, proofOfStake), key, shortId, pool + extra)
    ensures var n := SentInFull(vtx, proofOfStake);
      var ids := ShortIds(key, vtx[n..], shortId);
      laidOut == OK <==>
        header != 0 && (forall i :: 0 <= i < n ==> !vtx[i].isNull) && Distinct(ids, |ids|) && Uncrowded(ids, |ids|, crowded)
    ensures laidOut == OK ==> result == vtx && (filled == OK <==> valid)
  {
    OwnPlaces(header, key, vtx, proofOfStake, shortId);
    hide LaidOut, Matching, Merged, Gaps, Genuine, WellPlaced, Distinct, Uncrowded, Settled, Scanned;
    var a := Encoding(header, key, vtx, proofOfStake, shortId);
    var part := new PartiallyDownloadedBlock();
    ghost var scan;
    laidOut, scan := part.InitData(a, pool, extra, shortId, crowded);
    filled, result := INVALID, [];
    if laidOut == OK {
      AvailableIsRight(header, key, vtx, proofOfStake, shortId, scan.t, pool + extra, part.txnAvailable, scan.have, part.mempoolCount);
      ghost var avail := part.txnAvailable;
      var missing := Request(vtx, part.txnAvailable);
      filled, result := part.FillBlock(missing, valid, mutated);
      MergedIsBlock(vtx, avail, missing, result);
    }
  }

  /** A block's own announcement is well placed exactly if what it sends in full is there. */
  lemma {:induction false} OwnPlaces(header: nat, key: nat, vtx: seq<Tx>, proofOfStake: bool,
                                     shortId: (nat, nat) -> nat)
    requires 0 < |vtx| <= UINT16_MAX
    ensures var a := Encoding(header, key, vtx, proofOfStake, shortId);
      && TxCount(a) == |vtx| && Readable(a)
      && (WellPlaced(a) <==> forall i :: 0 <= i < SentInFull(vtx, proofOfStake) ==> !vtx[i].isNull)
  {
    var a, n := Encoding(header, key, vtx, proofOfStake, shortId), SentInFull(vtx, proofOfStake);
    assert LastIndex(a.prefilled, 1) == 0 && (n == 2 ==> LastIndex(a.prefilled, 2) == 1);
    assert PlaceOk(a, 0) <==> !vtx[0].isNull;
    assert n == 2 ==> (PlaceOk(a, 1) <==> !vtx[1].isNull);
  }

  method Request(vtx: seq<Tx>, avail: Slots) returns (missing: seq<Tx>)
    requires |avail| == |vtx|
    ensures IsMissing(vtx, avail, missing)
  {
    missing := [];
    for i := 0 to |avail|
      invariant IsMissing(vtx[..i], avail[..i], missing)
    {
      GapsPrefix(avail, i);
      if avail[i].None? {
        missing := missing + [vtx[i]];
      }
    }
    assert avail[..|avail|] == avail && vtx[..|vtx|] == vtx;
  }

  lemma LastIndexNext(pre: seq<Prefilled>, n: nat)
    requires n < |pre|
    ensures LastIndex(pre, n + 1) == LastIndex(pre, n) + pre[n].index + 1
  {
  }

  lemma {:induction false} LaidOutNone(pre: seq<Prefilled>, t: Slots)
    requires forall p :: 0 <= p < |t| ==> t[p].None?
    ensures LaidOut(pre, 0, t) && LastIndex(pre, 0) == -1
  {
    assert Occupied(t) == {};
  }

  lemma {:induction false} FirstGap(t: Slots, i: nat, from: nat, p: nat)
    requires i < |Gaps(t)| && from == (if i == 0 then 0 else Gaps(t)[i - 1] + 1) && from <= p <= Gaps(t)[i] < |t|
    requires (forall q :: from <= q < p ==> t[q].Some?) && t[p].None?
    ensures p == Gaps(t)[i]
  {
    GapsAre(t);
    hide Gaps;
    assert p in Gaps(t);
    assert forall m :: 0 <= m < i ==> Gaps(t)[m] < from;
    var k :| 0 <= k < |Gaps(t)| && Gaps(t)[k] == p;
  }

  lemma StoredNone(a: Announcement, t: Slots)
    requires |Gaps(t)| == |a.shortIds|
    ensures Stored(a, t, map[], 0)
  {
  }

  lemma {:induction false} MatchNone(a: Announcement, t: Slots, shortId: (nat, nat) -> nat, known: seq<Known>,
                                     have: seq<bool>)
    requires |Gaps(t)| == |a.shortIds| && |have| == |t|
    ensures Matching(a, t, shortId, known, t, have, 0)
  {
    hide Gaps;
    assert Filled(t, t) == {};
  }

  lemma MatchShape(a: Announcement, t: Slots, shortId: (nat, nat) -> nat, known: seq<Known>, avail: Slots,
                   have: seq<bool>, count: nat)
    requires Matching(a, t, shortId, known, avail, have, count)
    ensures |avail| == |t| == |have|
  {
  }
}
