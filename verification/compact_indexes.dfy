/** Differential index lists, as compact block requests carry them. */
module CompactIndexes {
  const UINT64_RANGE := 0x1_0000_0000_0000_0000
  const UINT64_MAX := 0xFFFF_FFFF_FFFF_FFFF
  const UINT16_MAX := 0xFFFF
  const MAX_SIZE := 0x0200_0000

  ghost predicate Increasing(s: seq<nat>) {
    forall i, j :: 0 <= i < j < |s| ==> s[i] < s[j]
  }

  ghost predicate Short(s: seq<nat>) {
    forall i :: 0 <= i < |s| ==> s[i] <= UINT16_MAX
  }

  /** The least index that may follow a list. */
  function Next(s: seq<nat>): nat {
    if s == [] then 0 else s[|s| - 1] + 1
  }

  /** The indexes that a list of differences stands for: each skips so many. */
  function Restored(diffs: seq<nat>): (r: seq<nat>)
    ensures |r| == |diffs|
  {
    if diffs == [] then [] else
    var r := Restored(diffs[..|diffs| - 1]);
    r + [Next(r) + diffs[|diffs| - 1]]
  }

  lemma RestoredNext(diffs: seq<nat>, d: nat)
    ensures Restored(diffs + [d]) == Restored(diffs) + [Next(Restored(diffs)) + d]
  {
    assert (diffs + [d])[..|diffs|] == diffs;
  }

  lemma {:induction false} RestoredIncreasing(diffs: seq<nat>)
    ensures Increasing(Restored(diffs))
  {
    if diffs != [] {
      var n := |diffs| - 1;
      RestoredIncreasing(diffs[..n]);
      var r := Restored(diffs[..n]);
      assert forall i :: 0 <= i < |r| ==> r[i] < Next(r);
    }
  }

  /** Different lists of differences stand for different indexes. */
  lemma {:induction false} RestoredInjective(d: seq<nat>, e: seq<nat>)
    requires Restored(d) == Restored(e)
    ensures d == e
  {
    assert |Restored(d)| == |d| && |Restored(e)| == |e|;
    if d != [] {
      var n := |d| - 1;
      var r, s := Restored(d[..n]), Restored(e[..n]);
      assert Restored(d)[..n] == r && Restored(e)[..n] == s;
      assert Restored(d)[n] == Next(r) + d[n] && Restored(e)[n] == Next(s) + e[n];
      RestoredInjective(d[..n], e[..n]);
      assert d == d[..n] + [d[n]] && e == e[..n] + [e[n]];
    }
  }

  lemma {:induction false} RestoredPrefix(diffs: seq<nat>, n: nat)
    requires n <= |diffs|
    ensures Restored(diffs)[..n] == Restored(diffs[..n])
  {
    if n == |diffs| {
      assert diffs[..n] == diffs && Restored(diffs)[..n] == Restored(diffs);
    } else {
      var m := |diffs| - 1;
      RestoredPrefix(diffs[..m], n);
      assert diffs[..m][..n] == diffs[..n];
    }
  }

  lemma {:induction false} IncreasingNext(s: seq<nat>, v: nat)
    requires Increasing(s)
    ensures Increasing(s + [v]) <==> v >= Next(s)
  {
    if Increasing(s + [v]) && s != [] {
      assert (s + [v])[|s| - 1] < (s + [v])[|s|];
    }
  }

  lemma IncreasingPrefix(s: seq<nat>, n: nat)
    requires n <= |s| && Increasing(s)
    ensures Increasing(s[..n])
  {
  }

  /** Writes each index as its distance from the least possible; refuses lists that do not increase. */
  method SerIndexes(indexes: seq<nat>) returns (threw: bool, diffs: seq<nat>)
    requires Short(indexes)
    ensures threw <==> !Increasing(indexes)
    ensures !threw ==> Restored(diffs) == indexes && Short(diffs)
  {
    hide Increasing, Restored;
    var shift := 0;
    diffs := [];
    RestoredNothing();
    for i := 0 to |indexes|
      invariant Increasing(indexes[..i]) && Restored(diffs) == indexes[..i] && Short(diffs)
      invariant shift == Next(indexes[..i])
    {
      var v := indexes[i];
      assert indexes[..i + 1] == indexes[..i] + [v];
      IncreasingNext(indexes[..i], v);
      if v < shift || v >= UINT64_MAX {
        if Increasing(indexes) { IncreasingPrefix(indexes, i + 1); }
        return true, [];
      }
      RestoredNext(diffs, v - shift);
      diffs := diffs + [v - shift];
      shift := v + 1;
    }
    assert indexes[..|indexes|] == indexes;
    threw := false;
  }

  lemma RestoredNothing()
    ensures Restored([]) == [] && Increasing([])
  {
  }

  /** Reads 16-bit indexes back; a sum that leaves the range or wraps around in 64 bits is refused. */
  method UnserIndexes(diffs: seq<nat>) returns (threw: bool, indexes: seq<nat>)
    requires forall i :: 0 <= i < |diffs| ==> diffs[i] < UINT64_RANGE
    ensures threw <==> !Short(Restored(diffs))
    ensures !threw ==> indexes == Restored(diffs)
  {
    hide Restored;
    var shift := 0;
    indexes := [];
    RestoredNothing();
    for i := 0 to |diffs|
      invariant indexes == Restored(diffs[..i]) && Short(indexes) && shift == Next(indexes) <= UINT16_MAX + 1
    {
      var n := diffs[i];
      assert diffs[..i + 1] == diffs[..i] + [n];
      RestoredNext(diffs[..i], n);
      ghost var here := Next(indexes) + n;
      if n > MAX_SIZE {
        TooLarge(diffs, i, here);
        return true, [];
      }
      shift := (shift + n) % UINT64_RANGE;
      if shift < n || shift >= UINT64_MAX || shift > UINT16_MAX {
        TooLarge(diffs, i, here);
        return true, [];
      }
      indexes := indexes + [shift];
      shift := shift + 1;
    }
    assert diffs[..|diffs|] == diffs;
    threw := false;
  }

  lemma {:induction false} TooLarge(diffs: seq<nat>, i: nat, v: nat)
    requires i < |diffs| && Restored(diffs[..i + 1])[i] == v > UINT16_MAX
    ensures !Short(Restored(diffs))
  {
    RestoredPrefix(diffs, i + 1);
    assert Restored(diffs)[i] == Restored(diffs)[..i + 1][i];
  }

  /** Exactly the strictly increasing lists survive writing and reading, unchanged. */
  method IndexesRoundTrip(indexes: seq<nat>) returns (ok: bool, back: seq<nat>)
    requires Short(indexes)
    ensures ok <==> Increasing(indexes)
    ensures ok ==> back == indexes
  {
    hide Increasing, Restored;
    back := [];
    var threw, diffs := SerIndexes(indexes);
    if threw {
      return false, [];
    }
    threw, back := UnserIndexes(diffs);
    ok := !threw;
  }
}
