/** The block index: skip-list ancestor search, the active chain, fork finding and
    locators, each against naive walking along the predecessor links. */
module ChainIndex {
  import opened Numbers

  // ---------- Skip heights ----------

  /** Bitwise and of two non-negative numbers. */
  function BitAnd(a: nat, b: nat): (r: nat)
    ensures r <= a && r <= b
  {
    if a == 0 || b == 0 then 0
    else (if a % 2 == 1 && b % 2 == 1 then 1 else 0) + 2 * BitAnd(a / 2, b / 2)
  }

  /** Turns the lowest 1 bit into 0. */
  function InvertLowestOne(n: nat): (r: nat)
    ensures n > 0 ==> r < n
  {
    if n == 0 then 0 else BitAnd(n, n - 1)
  }

  lemma {:induction false} BitAndSelf(a: nat)
    ensures BitAnd(a, a) == a
  {
    if a > 0 { BitAndSelf(a / 2); }
  }

  lemma {:induction false} InvertLowestOneDouble(n: nat)
    requires n > 0
    ensures InvertLowestOne(2 * n) == 2 * InvertLowestOne(n)
  {
    assert (2 * n) / 2 == n && (2 * n - 1) / 2 == n - 1;
  }

  lemma Doubling(m: nat, p: nat)
    ensures (2 * m + 1) * (2 * p) == 2 * ((2 * m + 1) * p) && 2 * m * (2 * p) == 2 * (2 * m * p)
    ensures p > 0 ==> (2 * m + 1) * p > 0
  {
  }

  lemma OddLowest(m: nat)
    ensures InvertLowestOne(2 * m + 1) == 2 * m
  {
    assert (2 * m + 1) / 2 == m && (2 * m) / 2 == m;
    BitAndSelf(m);
  }

  /** What the bit trick computes: the lowest set bit of an odd multiple of 2^k is bit k. */
  lemma {:induction false} InvertLowestOneMeaning(m: nat, k: nat)
    ensures InvertLowestOne((2 * m + 1) * Pow(2, k)) == 2 * m * Pow(2, k)
  {
    hide InvertLowestOne;
    if k == 0 {
      OddLowest(m);
    } else {
      InvertLowestOneMeaning(m, k - 1);
      PowPositive(2, k - 1);
      Doubling(m, Pow(2, k - 1));
      InvertLowestOneDouble((2 * m + 1) * Pow(2, k - 1));
    }
  }

  /** Every positive number is an odd multiple of a power of two, so that for all of them exactly the lowest
      set bit is cleared. */
  lemma {:induction false} LowestOneCleared(n: nat) returns (m: nat, k: nat)
    requires n > 0
    ensures n == (2 * m + 1) * Pow(2, k) && InvertLowestOne(n) == n - Pow(2, k)
  {
    hide InvertLowestOne;
    if n % 2 == 1 {
      m, k := n / 2, 0;
      PowZero(2);
    } else {
      m, k := LowestOneCleared(n / 2);
      Doubling(m, Pow(2, k));
      PowNext(2, k);
      k := k + 1;
    }
    InvertLowestOneMeaning(m, k);
    OddMinusEven(m, Pow(2, k));
  }

  lemma OddMinusEven(m: nat, p: nat)
    ensures (2 * m + 1) * p - 2 * m * p == p
  {
  }

  /** Always strictly below the current height, which is what makes the search terminate. */
  function GetSkipHeight(height: nat): (r: nat)
    ensures height > 0 ==> r < height
  {
    if height < 2 then 0
    else if height % 2 == 1 then InvertLowestOne(InvertLowestOne(height - 1)) + 1
    else InvertLowestOne(height)
  }

  // ---------- Blocks ----------

  class BlockIndex {
    const pprev: BlockIndex?
    const nHeight: nat
    const hash: nat
    var pskip: BlockIndex?

    constructor (pprev: BlockIndex?, hash: nat)
      ensures this.pprev == pprev && this.hash == hash && pskip == null
      ensures nHeight == if pprev == null then 0 else pprev.nHeight + 1
    {
      this.pprev := pprev;
      this.hash := hash;
      nHeight := if pprev == null then 0 else pprev.nHeight + 1;
      pskip := null;
    }

    ghost predicate Rooted()
      decreases nHeight
    {
      if pprev == null then nHeight == 0 else nHeight == pprev.nHeight + 1 && pprev.Rooted()
    }

    /** The ancestor (or self) at a height, by walking the predecessor links. */
    ghost function At(h: nat): (r: BlockIndex)
      requires Rooted() && h <= nHeight
      ensures r.nHeight == h && r.Rooted()
      decreases nHeight
    {
      if h == nHeight then this else pprev.At(h)
    }

    lemma {:induction false} AtAt(h: nat, k: nat)
      requires Rooted() && k <= h <= nHeight
      ensures At(h).At(k) == At(k)
      decreases nHeight
    {
      if h < nHeight { pprev.AtAt(h, k); }
    }

    ghost predicate SkipOk()
      requires Rooted()
      reads this
    {
      pskip != null ==> nHeight > 0 && pskip == At(GetSkipHeight(nHeight))
    }

    /** Finds the block that walking the predecessor links would find, for any height asked. */
    method GetAncestor(height: int, ghost tree: set<BlockIndex>) returns (r: BlockIndex?)
      requires Tree(tree) && this in tree
      ensures r == if 0 <= height <= nHeight then At(height) else null
      ensures r != null ==> r in tree
    {
      if height > nHeight || height < 0 {
        return null;
      }
      var walk, heightWalk := this, nHeight;
      while heightWalk > height
        invariant height <= heightWalk <= nHeight && walk == At(heightWalk) && walk in tree
        decreases heightWalk
      {
        var heightSkip := GetSkipHeight(heightWalk);
        var heightSkipPrev := GetSkipHeight(heightWalk - 1);
        if walk.pskip != null &&
           (heightSkip == height || (heightSkip > height && !(heightSkipPrev < heightSkip - 2 && heightSkipPrev >= height))) {
          AtAt(heightWalk, heightSkip);
          InTree(tree, walk, heightSkip);
          walk := walk.pskip;
          heightWalk := heightSkip;
        } else {
          AtAt(heightWalk, heightWalk - 1);
          walk := walk.pprev;
          heightWalk := heightWalk - 1;
        }
      }
      return walk;
    }

    /** Gives this block its skip pointer; the tree with this block in it is again well skipped. */
    method BuildSkip(ghost tree: set<BlockIndex>)
      requires Tree(tree) && Rooted() && (if pprev != null then pprev in tree else pskip == null)
      modifies this
      ensures Tree(tree + {this})
      ensures pprev != null ==> pskip == At(GetSkipHeight(nHeight))
    {
      if pprev != null {
        var p := pprev.GetAncestor(GetSkipHeight(nHeight), tree);
        pskip := p;
      }
    }
  }

  /** A set of blocks closed under predecessors whose skip pointers lead where they should. */
  ghost predicate Tree(tree: set<BlockIndex>)
    reads tree
  {
    forall b :: b in tree ==> b.Rooted() && (b.pprev != null ==> b.pprev in tree) && b.SkipOk()
  }

  lemma {:induction false} InTree(tree: set<BlockIndex>, b: BlockIndex, h: nat)
    requires Tree(tree) && b in tree && h <= b.nHeight
    ensures b.At(h) in tree
    decreases b.nHeight
  {
    if h < b.nHeight { InTree(tree, b.pprev, h); }
  }

  // ---------- The active chain ----------

  /** `v` is the path from genesis to `tip`. */
  ghost predicate PathTo(v: seq<BlockIndex?>, tip: BlockIndex)
    requires tip.Rooted()
  {
    |v| == tip.nHeight + 1 && forall i :: 0 <= i < |v| ==> v[i] == tip.At(i)
  }

  /** `r` is the highest block that is an ancestor-or-self of both, or null if there is none. */
  ghost predicate HighestCommon(a: BlockIndex, b: BlockIndex, r: BlockIndex?)
    requires a.Rooted() && b.Rooted()
  {
    && (r != null ==> r.nHeight <= a.nHeight && r.nHeight <= b.nHeight && r == a.At(r.nHeight) == b.At(r.nHeight))
    && (forall h: nat :: h <= a.nHeight && h <= b.nHeight && (r == null || h > r.nHeight) ==> a.At(h) != b.At(h))
  }

  lemma HighestCommonUnique(a: BlockIndex, b: BlockIndex, r: BlockIndex?, s: BlockIndex?)
    requires a.Rooted() && b.Rooted() && HighestCommon(a, b, r) && HighestCommon(b, a, s)
    ensures r == s
  {
    if r != null { assert b.At(r.nHeight) == a.At(r.nHeight); }
    if s != null { assert a.At(s.nHeight) == b.At(s.nHeight); }
  }

  class Chain {
    var vChain: seq<BlockIndex?>

    constructor ()
      ensures vChain == []
    {
      vChain := [];
    }

    function AtHeight(nHeight: int): BlockIndex?
      reads this
    {
      if nHeight < 0 || nHeight >= |vChain| then null else vChain[nHeight]
    }

    predicate Contains(b: BlockIndex)
      reads this
    {
      AtHeight(b.nHeight) == b
    }

    function Next(b: BlockIndex): BlockIndex?
      reads this
    {
      if Contains(b) then AtHeight(b.nHeight + 1) else null
    }

    function Height(): int
      reads this
    {
      |vChain| - 1
    }

    /** Whatever the active chain was, it becomes exactly the path to the new tip. */
    method SetTip(block: BlockIndex, ghost was: BlockIndex?)
      requires block.Rooted()
      requires if was == null then vChain == [] else was.Rooted() && PathTo(vChain, was)
      modifies this
      ensures PathTo(vChain, block)
    {
      var n := block.nHeight + 1;
      vChain := if |vChain| >= n then vChain[..n] else vChain + seq(n - |vChain|, _ => null);
      ghost var resized := vChain;
      var pindex: BlockIndex? := block;
      while pindex != null && vChain[pindex.nHeight] != pindex
        invariant |vChain| == n == |resized|
        invariant pindex != null ==> pindex.nHeight < n && pindex == block.At(pindex.nHeight)
        invariant forall i :: 0 <= i < n && (pindex == null || i > pindex.nHeight) ==> vChain[i] == block.At(i)
        invariant forall i :: 0 <= i < n && pindex != null && i <= pindex.nHeight ==> vChain[i] == resized[i]
        decreases if pindex == null then 0 else pindex.nHeight + 1
      {
        vChain := vChain[pindex.nHeight := pindex];
        if pindex.nHeight > 0 {
          block.AtAt(pindex.nHeight, pindex.nHeight - 1);
        }
        pindex := pindex.pprev;
      }
      if pindex != null {
        ghost var h := pindex.nHeight;
        forall i | 0 <= i <= h ensures vChain[i] == block.At(i) {
          was.AtAt(h, i);
          block.AtAt(h, i);
        }
      }
    }

    /** The highest ancestor-or-self of `pindex` on this chain. */
    method FindFork(pindex: BlockIndex?, ghost tree: set<BlockIndex>, ghost tip: BlockIndex?) returns (r: BlockIndex?)
      requires Tree(tree) && (pindex != null ==> pindex in tree)
      requires if tip == null then vChain == [] else tip.Rooted() && PathTo(vChain, tip)
      ensures pindex == null || tip == null ==> r == null
      ensures pindex != null && tip != null ==> HighestCommon(tip, pindex, r)
    {
      if pindex == null {
        return null;
      }
      r := pindex;
      if pindex.nHeight > Height() {
        r := pindex.GetAncestor(Height(), tree);
      }
      if tip != null { WalkBegins(tip, pindex, r); }
      while r != null && !Contains(r)
        invariant r != null ==> tip != null && r in tree && r.nHeight <= tip.nHeight
        invariant tip != null ==> Walked(tip, pindex, r)
        decreases if r == null then 0 else r.nHeight + 1
      {
        WalkStep(tip, pindex, r);
        r := r.pprev;
      }
      if tip != null { WalkEnds(tip, pindex, r); }
    }
  }

  /** Above `r`, which is `p` or an ancestor of it, the two branches differ. */
  ghost predicate Walked(tip: BlockIndex, p: BlockIndex, r: BlockIndex?)
    requires tip.Rooted() && p.Rooted()
  {
    && (r != null ==> r.nHeight <= p.nHeight && r.nHeight <= tip.nHeight && r == p.At(r.nHeight))
    && forall h: nat :: h <= p.nHeight && h <= tip.nHeight && (r == null || h > r.nHeight) ==> p.At(h) != tip.At(h)
  }

  lemma {:induction false} WalkBegins(tip: BlockIndex, p: BlockIndex, r: BlockIndex?)
    requires tip.Rooted() && p.Rooted() && r != null
    requires r == if p.nHeight > tip.nHeight then p.At(tip.nHeight) else p
    ensures Walked(tip, p, r)
  {
    p.AtAt(r.nHeight, r.nHeight);
  }

  lemma {:induction false} WalkStep(tip: BlockIndex, p: BlockIndex, r: BlockIndex)
    requires tip.Rooted() && p.Rooted() && Walked(tip, p, r) && r != tip.At(r.nHeight)
    ensures Walked(tip, p, r.pprev)
  {
    if r.nHeight > 0 { p.AtAt(r.nHeight, r.nHeight - 1); }
  }

  lemma WalkEnds(tip: BlockIndex, p: BlockIndex, r: BlockIndex?)
    requires tip.Rooted() && p.Rooted() && Walked(tip, p, r) && (r != null ==> r == tip.At(r.nHeight))
    ensures HighestCommon(tip, p, r)
  {
  }

  /** The last block two branches share; the final assertion of the source, that both walks
      end at the same place, always holds. */
  method LastCommonAncestor(pa: BlockIndex, pb: BlockIndex, ghost tree: set<BlockIndex>) returns (r: BlockIndex?)
    requires Tree(tree) && pa in tree && pb in tree
    ensures HighestCommon(pa, pb, r)
    ensures r == null <==> pa.At(0) != pb.At(0)
  {
    var a: BlockIndex?, b: BlockIndex? := pa, pb;
    if pa.nHeight > pb.nHeight {
      a := pa.GetAncestor(pb.nHeight, tree);
    } else if pb.nHeight > pa.nHeight {
      b := pb.GetAncestor(pa.nHeight, tree);
    }
    WalkBegins(pb, pa, a);
    WalkBegins(pa, pb, b);
    while a != b && a != null && b != null
      invariant (a == null) == (b == null)
      invariant a != null ==> a in tree && b in tree && a.nHeight == b.nHeight
      invariant Walked(pb, pa, a) && Walked(pa, pb, b)
      decreases if a == null then 0 else a.nHeight + 1
    {
      WalkStep(pb, pa, a);
      WalkStep(pa, pb, b);
      a, b := a.pprev, b.pprev;
    }
    assert a == b;
    r := a;
    WalkEnds(pa, pb, r);
    SharedGenesis(pa, pb, r);
  }

  /** Two branches share a block exactly when they share their first one. */
  lemma {:induction false} SharedGenesis(a: BlockIndex, b: BlockIndex, r: BlockIndex?)
    requires a.Rooted() && b.Rooted() && HighestCommon(a, b, r)
    ensures r == null <==> a.At(0) != b.At(0)
  {
    if r != null {
      a.AtAt(r.nHeight, 0);
      b.AtAt(r.nHeight, 0);
    }
  }

  /** The fork point with the active chain is the last common ancestor with its tip. */
  lemma ForkIsLastCommonAncestor(tip: BlockIndex, p: BlockIndex, fork: BlockIndex?, lca: BlockIndex?)
    requires tip.Rooted() && p.Rooted()
    requires HighestCommon(tip, p, fork) && HighestCommon(tip, p, lca)
    ensures fork == lca
    ensures tip.At(0) == p.At(0) ==> fork != null
  {
    assert HighestCommon(p, tip, lca);
    HighestCommonUnique(tip, p, fork, lca);
  }

  // ---------- Locators ----------

  function NextHeight(height: nat, step: nat): nat {
    if height > step then height - step else 0
  }

  /** Heights of the remaining locator entries, given the height reached, the step to take
      next and the number of entries already made. */
  function LocatorHeights(height: nat, step: nat, made: nat): (r: seq<nat>)
    requires step > 0
    ensures |r| > 0 && r[0] == height
    decreases height
  {
    if height == 0 then [0]
    else [height] + LocatorHeights(NextHeight(height, step), if made + 1 > 10 then step * 2 else step, made + 1)
  }

  /** The entries go strictly down from the tip to genesis. */
  lemma {:induction false} LocatorDescends(height: nat, step: nat, made: nat)
    requires step > 0
    ensures var r := LocatorHeights(height, step, made);
            r[|r| - 1] == 0 && forall i, j :: 0 <= i < j < |r| ==> r[i] > r[j]
    decreases height
  {
    if height > 0 {
      LocatorDescends(NextHeight(height, step), if made + 1 > 10 then step * 2 else step, made + 1);
    }
  }

  // The hashes of a block's ancestors at the remaining locator heights.
  ghost function HashesFrom(index: BlockIndex, height: nat, step: nat, made: nat): seq<nat>
    requires step > 0 && index.Rooted() && height <= index.nHeight
    decreases height
  {
    if height == 0 then [index.At(0).hash]
    else [index.At(height).hash] + HashesFrom(index, NextHeight(height, step), if made + 1 > 10 then step * 2 else step, made + 1)
  }

  lemma {:induction false} HashesAtHeights(index: BlockIndex, height: nat, step: nat, made: nat)
    requires step > 0 && index.Rooted() && height <= index.nHeight
    ensures var hs, r := LocatorHeights(height, step, made), HashesFrom(index, height, step, made);
            |r| == |hs| && forall i :: 0 <= i < |hs| ==> hs[i] <= index.nHeight && r[i] == index.At(hs[i]).hash
    decreases height
  {
    if height > 0 {
      HashesAtHeights(index, NextHeight(height, step), if made + 1 > 10 then step * 2 else step, made + 1);
    }
  }

  /** The locator lists the hashes of the ancestors at those heights. */
  method LocatorEntries(index: BlockIndex?, ghost tree: set<BlockIndex>) returns (have: seq<nat>)
    requires Tree(tree) && (index != null ==> index in tree)
    ensures index == null ==> have == []
    ensures index != null ==>
              var hs := LocatorHeights(index.nHeight, 1, 0);
              |have| == |hs| && forall i :: 0 <= i < |hs| ==> hs[i] <= index.nHeight && have[i] == index.At(hs[i]).hash
  {
    if index == null {
      return [];
    }
    HashesAtHeights(index, index.nHeight, 1, 0);
    have := WalkLocator(index, tree);
  }

  method WalkLocator(index: BlockIndex, ghost tree: set<BlockIndex>) returns (have: seq<nat>)
    requires Tree(tree) && index in tree
    ensures have == HashesFrom(index, index.nHeight, 1, 0)
  {
    hide HashesFrom;
    have := [];
    ghost var all := HashesFrom(index, index.nHeight, 1, 0);
    var step, walk := 1, index;
    while walk.nHeight > 0
      invariant step > 0 && walk in tree && walk.nHeight <= index.nHeight && walk == index.At(walk.nHeight)
      invariant have + HashesFrom(index, walk.nHeight, step, |have|) == all
      decreases walk.nHeight
    {
      HashesUnfold(index, walk.nHeight, step, |have|);
      walk, have, step := TakeLocatorStep(index, walk, have, step, tree);
    }
    HashesUnfold(index, 0, step, |have|);
    have := have + [walk.hash];
  }

  // One turn of the loop: record the block, then go back along the skip list.
  method TakeLocatorStep(ghost index: BlockIndex, walk: BlockIndex, have: seq<nat>, step: nat,
                         ghost tree: set<BlockIndex>)
      returns (walk': BlockIndex, have': seq<nat>, step': nat)
    requires Tree(tree) && index in tree && walk in tree && step > 0
    requires 0 < walk.nHeight <= index.nHeight && walk == index.At(walk.nHeight)
    ensures walk' in tree && walk'.nHeight == NextHeight(walk.nHeight, step) && walk' == index.At(walk'.nHeight)
    ensures have' == have + [walk.hash] && step' == if |have| + 1 > 10 then step * 2 else step
  {
    have' := have + [walk.hash];
    var height := NextHeight(walk.nHeight, step);
    index.AtAt(walk.nHeight, height);
    walk' := walk.GetAncestor(height, tree);
    step' := if |have'| > 10 then step * 2 else step;
  }

  lemma HashesUnfold(index: BlockIndex, height: nat, step: nat, made: nat)
    requires step > 0 && index.Rooted() && height <= index.nHeight
    ensures HashesFrom(index, height, step, made) ==
            [index.At(height).hash] +
            if height == 0 then []
            else HashesFrom(index, NextHeight(height, step), if made + 1 > 10 then step * 2 else step, made + 1)
  {
  }

  lemma LocatorUnfold(height: nat, step: nat, made: nat)
    requires step > 0
    ensures LocatorHeights(height, step, made) ==
            if height == 0 then [0]
            else [height] + LocatorHeights(NextHeight(height, step), if made + 1 > 10 then step * 2 else step, made + 1)
  {
  }

  // From the twelfth entry on the steps double: entry 12 + k is followed by a step of 2^(k+1).
  lemma {:induction false} DoublingTail(h: nat, k: nat, m: nat)
    requires k <= m
    ensures Pow(2, k + 1) > 0
    ensures |LocatorHeights(h, Pow(2, k + 1), 11 + k)| <= m - k + 1 <==> h <= Pow(2, m + 1) - Pow(2, k + 1)
    decreases m - k
  {
    hide LocatorHeights;
    Pow2Monotone(0, k + 1);
    Pow2Monotone(k + 1, m + 1);
    var p := Pow(2, k + 1);
    LocatorUnfold(h, p, 11 + k);
    if h > 0 && k < m {
      DoublingTail(NextHeight(h, p), k + 1, m);
      Pow2Monotone(k + 2, m + 1);
      assert Pow(2, k + 2) == p * 2 && 11 + (k + 1) == 11 + k + 1;
      assert |LocatorHeights(h, p, 11 + k)| == 1 + |LocatorHeights(NextHeight(h, p), Pow(2, k + 2), 11 + (k + 1))|;
    }
  }

  lemma {:induction false} Pow2Monotone(a: nat, b: nat)
    requires a <= b
    ensures 0 < Pow(2, a) <= Pow(2, b)
  {
    PowPositive(2, a);
    PowMonotone(2, a, b);
  }

  lemma {:induction false} SteadyHead(h: nat, made: nat, m: nat)
    requires made <= 11
    ensures |LocatorHeights(h, if made == 11 then 2 else 1, made)| <= m + 12 - made <==> h <= Pow(2, m + 1) + 9 - made
    decreases 11 - made
  {
    hide LocatorHeights;
    Pow2Monotone(1, m + 1);
    LocatorUnfold(h, if made == 11 then 2 else 1, made);
    if made == 11 {
      DoublingTail(h, 0, m);
    } else if h > 0 {
      SteadyHead(h - 1, made + 1, m);
    }
  }

  /** A locator has at most m + 12 entries exactly when the height is at most 2^(m+1) + 9. */
  lemma LocatorLength(h: nat, m: nat)
    ensures |LocatorHeights(h, 1, 0)| <= m + 12 <==> h <= Pow(2, m + 1) + 9
  {
    SteadyHead(h, 0, m);
  }

  // The largest value the doubling step takes.
  function LastStep(height: nat, step: nat, made: nat): nat
    requires step > 0
    decreases height
  {
    if height == 0 then step
    else LastStep(NextHeight(height, step), if made + 1 > 10 then step * 2 else step, made + 1)
  }

  lemma {:induction false} StepTail(h: nat, k: nat)
    ensures Pow(2, k + 1) > 0
    ensures LastStep(h, Pow(2, k + 1), 11 + k) == Pow(2, k + |LocatorHeights(h, Pow(2, k + 1), 11 + k)|)
    decreases h
  {
    hide LocatorHeights;
    Pow2Monotone(0, k + 1);
    var p := Pow(2, k + 1);
    LocatorUnfold(h, p, 11 + k);
    if h > 0 {
      StepTail(NextHeight(h, p), k + 1);
      assert Pow(2, k + 2) == p * 2 && 11 + (k + 1) == 11 + k + 1;
    }
  }

  lemma {:induction false} StepHead(h: nat, made: nat)
    requires made <= 11
    ensures var step := if made == 11 then 2 else 1;
            var n := made + |LocatorHeights(h, step, made)|;
            LastStep(h, step, made) == if n <= 11 then 1 else Pow(2, n - 11)
    decreases 11 - made
  {
    hide LocatorHeights;
    LocatorUnfold(h, if made == 11 then 2 else 1, made);
    if made == 11 {
      assert Pow(2, 1) == 2;
      StepTail(h, 0);
    } else if h > 0 {
      StepHead(h - 1, made + 1);
    }
  }

  lemma {:induction false} Pow2Strict(a: nat, b: nat)
    ensures Pow(2, a) < Pow(2, b) <==> a < b
  {
    if a < b { Pow2Monotone(a, b - 1); } else { Pow2Monotone(b, a); }
  }

  /** The step fits a signed 32-bit integer exactly up to height 2^30 + 9. */
  lemma LocatorStepFits(h: nat)
    ensures LastStep(h, 1, 0) < Pow(2, 31) <==> h <= Pow(2, 30) + 9
  {
    hide LocatorHeights, LastStep, Pow;
    StepHead(h, 0);
    LocatorLength(h, 29);
    var n := |LocatorHeights(h, 1, 0)|;
    Pow2Strict(if n <= 11 then 0 else n - 11, 31);
    PowZero(2);
  }
}
