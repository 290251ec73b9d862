/** The download-twice headers synchronisation: commitments are taken in the first phase,
    and headers of the second phase are released only once enough of them sit on top. */
module HeadersSync {

  const HEADER_COMMITMENT_PERIOD := 568
  const REDOWNLOAD_BUFFER_SIZE := 10071
  const WORK_MODULUS := 0x1_0000000000000000_0000000000000000_0000000000000000_0000000000000000

  type Hash = nat

  datatype Header = Header(nVersion: int, hashPrevBlock: Hash, hashMerkleRoot: nat, nTime: nat, nBits: nat, nNonce: nat, nFlags: nat)

  /** A header without its hashPrevBlock. */
  datatype CompressedHeader = CompressedHeader(nVersion: int, hashMerkleRoot: nat, nTime: nat, nBits: nat, nNonce: nat, nFlags: nat) {
    function GetFullHeader(hashPrevBlock: Hash): Header {
      Header(nVersion, hashPrevBlock, hashMerkleRoot, nTime, nBits, nNonce, nFlags)
    }
  }

  function Compress(h: Header): CompressedHeader {
    CompressedHeader(h.nVersion, h.hashMerkleRoot, h.nTime, h.nBits, h.nNonce, h.nFlags)
  }

  function CompressAll(hs: seq<Header>): seq<CompressedHeader> {
    seq(|hs|, i requires 0 <= i < |hs| => Compress(hs[i]))
  }

  /** What there is to know about the headers seen so far. */
  datatype Tally = Tally(
    count: nat,
    linked: bool,         // each header names the hash of the one before it
    permitted: bool,      // every difficulty transition is permitted
    work: nat,            // accumulated work, a 256-bit number that wraps like one
    reached: bool,        // the work was at the threshold after some header
    bits: seq<bool>,      // the commitments, oldest first
    lastHash: Hash,
    lastBits: nat)

  /** What the sync is parameterised by: hashing, the salted commitment bit, the permitted
      difficulty transitions, proof per nBits, the chain start and the work threshold. */
  datatype Setting = Setting(
    hash: Header -> Hash,
    bit: Hash -> bool,
    permitted: (int, nat, nat) -> bool,
    proof: nat -> nat,
    start: Header,
    startHeight: nat,
    startWork: nat,
    minimumWork: nat,
    commitOffset: nat,
    maxCommitments: nat)
  {
    predicate IsCommitHeight(height: int) {
      height % HEADER_COMMITMENT_PERIOD == commitOffset
    }

    function None(): Tally {
      Tally(0, true, true, startWork, false, [], hash(start), start.nBits)
    }

    function AddWork(work: nat, nBits: nat): nat {
      (work + proof(nBits)) % WORK_MODULUS
    }

    function Take(t: Tally, h: Header): Tally {
      var height := startHeight + t.count + 1;
      var work := AddWork(t.work, h.nBits);
      Tally(t.count + 1,
            t.linked && h.hashPrevBlock == t.lastHash,
            t.permitted && permitted(height, t.lastBits, h.nBits),
            work,
            t.reached || work >= minimumWork,
            t.bits + (if IsCommitHeight(height) then [bit(hash(h))] else []),
            hash(h),
            h.nBits)
    }

    function Of(hs: seq<Header>): Tally {
      if hs == [] then None() else Take(Of(hs[..|hs| - 1]), hs[|hs| - 1])
    }

    /** Each header names the hash of the one before it, the first the chain start's. */
    ghost predicate Linked(hs: seq<Header>) {
      forall i :: 0 <= i < |hs| ==> hs[i].hashPrevBlock == Of(hs[..i]).lastHash
    }
  }

  lemma {:induction false} Extend(g: Setting, hs: seq<Header>, h: Header)
    ensures g.Of(hs + [h]) == g.Take(g.Of(hs), h)
  {
    var e := hs + [h];
    assert e[..|e| - 1] == hs && e[|e| - 1] == h;
  }

  lemma {:induction false} Basics(g: Setting, hs: seq<Header>)
    ensures g.Of([]) == g.None()
    ensures var t := g.Of(hs);
            && t.count == |hs| && (hs != [] && t.work >= g.minimumWork ==> t.reached)
            && t.lastHash == (if hs == [] then g.hash(g.start) else g.hash(hs[|hs| - 1]))
            && t.lastBits == (if hs == [] then g.start.nBits else hs[|hs| - 1].nBits)
  {
    if hs != [] {
      Basics(g, hs[..|hs| - 1]);
    }
  }

  /** The tally's flag is the plain statement about the whole sequence. */
  lemma {:induction false} TallyLinked(g: Setting, hs: seq<Header>)
    ensures g.Of(hs).linked <==> g.Linked(hs)
  {
    hide Setting.Of;
    if hs == [] {
      NothingTallied(g);
    } else {
      var init := hs[..|hs| - 1];
      TallyLinked(g, init);
      TakenLinked(g, hs);
      assert forall i :: 0 <= i <= |init| ==> hs[..i] == init[..i];
      assert g.Linked(hs) <==> g.Linked(init) && hs[|init|].hashPrevBlock == g.Of(init).lastHash;
    }
  }

  lemma NothingTallied(g: Setting)
    ensures g.Of([]) == g.None()
  {
  }

  lemma TakenLinked(g: Setting, hs: seq<Header>)
    requires hs != []
    ensures var init := hs[..|hs| - 1]; g.Of(hs).linked <==> g.Of(init).linked && hs[|init|].hashPrevBlock == g.Of(init).lastHash
  {
    hide Setting.IsCommitHeight, Setting.AddWork;
  }

  /** The flags of a sequence hold of its prefixes, and commitments only grow. */
  lemma {:induction false} Prefix(g: Setting, hs: seq<Header>, k: nat)
    requires k <= |hs|
    ensures var t, p := g.Of(hs), g.Of(hs[..k]);
            && (t.linked ==> p.linked) && (t.permitted ==> p.permitted)
            && (p.reached ==> t.reached) && p.bits <= t.bits
    decreases |hs|
  {
    if k < |hs| {
      Prefix(g, hs[..|hs| - 1], k);
      assert hs[..|hs| - 1][..k] == hs[..k];
    } else {
      assert hs[..k] == hs;
    }
  }

  // ---------- Counting commitments ----------

  lemma PeriodStep(height: int, offset: nat)
    requires offset < HEADER_COMMITMENT_PERIOD
    ensures (height - offset) / HEADER_COMMITMENT_PERIOD - (height - 1 - offset) / HEADER_COMMITMENT_PERIOD ==
            if height % HEADER_COMMITMENT_PERIOD == offset then 1 else 0
  {
  }

  lemma {:induction false} CommitmentsCount(g: Setting, hs: seq<Header>)
    requires g.commitOffset < HEADER_COMMITMENT_PERIOD
    ensures |g.Of(hs).bits| ==
            (g.startHeight + |hs| - g.commitOffset) / HEADER_COMMITMENT_PERIOD - (g.startHeight - g.commitOffset) / HEADER_COMMITMENT_PERIOD
  {
    if hs != [] {
      var init := hs[..|hs| - 1];
      CommitmentsCount(g, init);
      Basics(g, init);
      PeriodStep(g.startHeight + |hs|, g.commitOffset);
    }
  }

  /** Any stretch as long as the look-ahead buffer contains at least 17 commitments. */
  lemma {:induction false} BufferHoldsCommitments(g: Setting, hs: seq<Header>, i: nat)
    requires g.commitOffset < HEADER_COMMITMENT_PERIOD && i + REDOWNLOAD_BUFFER_SIZE <= |hs|
    ensures |g.Of(hs).bits| - |g.Of(hs[..i]).bits| >= 17
  {
    CommitmentsCount(g, hs);
    CommitmentsCount(g, hs[..i]);
  }

  /** The caller's guarantee about one batch: each header follows the one before it. */
  ghost predicate Continuous(g: Setting, hs: seq<Header>) {
    forall i :: 0 < i < |hs| ==> hs[i].hashPrevBlock == g.hash(hs[i - 1])
  }

  /** A continuous batch is linked to what came before exactly when its first header is. */
  lemma {:induction false} ContinuousLinked(g: Setting, before: seq<Header>, hs: seq<Header>)
    requires g.Of(before).linked && Continuous(g, hs) && hs != []
    ensures g.Of(before + hs).linked <==> hs[0].hashPrevBlock == g.Of(before).lastHash
    decreases |hs|
  {
    var n := |hs| - 1;
    var taken, h := before + hs[..n], hs[n];
    assert before + hs == taken + [h];
    Extend(g, taken, h);
    if n == 0 {
      assert taken == before;
    } else {
      ContinuousLinked(g, before, hs[..n]);
      Basics(g, taken);
    }
  }

  // Header i of a batch extends what was taken before it; a failure there is one of the whole batch.
  lemma {:induction false} BatchStep(g: Setting, before: seq<Header>, headers: seq<Header>, i: nat)
    requires i < |headers| && g.Of(before + headers).linked
    ensures var taken, h := before + headers[..i], headers[i];
            var t, all := g.Of(taken), g.Of(before + headers);
            && taken + [h] == before + headers[..i + 1]
            && h.hashPrevBlock == t.lastHash
            && (all.permitted ==> g.Take(t, h).permitted)
            && |g.Take(t, h).bits| <= |all.bits|
  {
    var all, k := before + headers, |before| + i;
    assert all[..k] == before + headers[..i] && all[..k + 1] == before + headers[..i] + [headers[i]];
    Extend(g, all[..k], headers[i]);
    Prefix(g, all, k + 1);
  }

  lemma MoveFront(a: seq<bool>, c: seq<bool>)
    requires c != []
    ensures a + [c[0]] + c[1..] == a + c
  {
  }

  lemma Append(a: seq<Header>, b: seq<Header>, h: Header)
    ensures a + (b + [h]) == a + b + [h]
    ensures CompressAll(b + [h]) == CompressAll(b) + [Compress(h)]
  {
  }

  datatype Phase = PRESYNC | REDOWNLOAD | FINAL

  datatype ProcessingResult = ProcessingResult(powValidated: seq<Header>, success: bool, requestMore: bool)

  class HeadersSyncState {
    const g: Setting
    var phase: Phase
    var currentWork: nat
    var commitments: seq<bool>
    var lastHeaderReceived: Header
    var currentHeight: int
    var redownloaded: seq<CompressedHeader>
    var bufferLastHeight: int
    var bufferLastHash: Hash
    var bufferFirstPrevHash: Hash
    var redownloadWork: nat
    var processAll: bool

    ghost var presynced: seq<Header>  // every header taken in PRESYNC
    ghost var accepted: seq<Header>   // every header stored in REDOWNLOAD
    ghost var checked: seq<Header>    // the accepted headers stored before the work threshold was met
    ghost var released: seq<Header>   // the accepted headers handed out so far
    ghost var buffered: seq<Header>   // the accepted headers still in the buffer

    ghost predicate NothingAccepted()
      reads this
    {
      accepted == [] && released == [] && buffered == [] && checked == [] && !processAll
    }

    ghost predicate PresyncOk()
      reads this
    {
      var t := g.Of(presynced);
      && t.linked && t.permitted
      && currentHeight == g.startHeight + t.count
      && g.hash(lastHeaderReceived) == t.lastHash && lastHeaderReceived.nBits == t.lastBits
      && currentWork == t.work
      && commitments == t.bits
      && |commitments| <= g.maxCommitments
      && NothingAccepted()
    }

    ghost predicate PresyncedEnough()
      reads this
    {
      var t := g.Of(presynced);
      presynced != [] && t.linked && t.permitted && t.reached && |t.bits| <= g.maxCommitments
    }

    ghost predicate ChainOk()
      reads this
    {
      var t := g.Of(accepted);
      && t.linked && t.permitted
      && bufferLastHash == t.lastHash
      && bufferLastHeight == g.startHeight + t.count
      && redownloadWork == t.work
      && processAll == t.reached
    }

    ghost predicate CommitmentsOk()
      reads this
    {
      && checked <= accepted && (!processAll ==> checked == accepted)
      && g.Of(checked).bits + commitments == g.Of(presynced).bits
    }

    ghost predicate BufferOk()
      reads this
    {
      && accepted == released + buffered
      && redownloaded == CompressAll(buffered)
      && bufferFirstPrevHash == g.Of(released).lastHash
    }

    // What the second phase keeps while it stores headers.
    ghost predicate StoreOk()
      reads this
    {
      PresyncedEnough() && ChainOk() && CommitmentsOk() && BufferOk() && (buffered == [] ==> accepted == [])
    }

    /** What was handed out so far: a linked chain from the start, and, while the second
        download has not shown enough work, buried under a full buffer of matched headers. */
    ghost predicate History()
      reads this
    {
      && accepted == released + buffered && g.Of(accepted).linked
      && (released != [] && !g.Of(accepted).reached ==>
            |buffered| >= REDOWNLOAD_BUFFER_SIZE && g.Of(accepted).bits <= g.Of(presynced).bits)
    }

    ghost predicate Valid()
      reads this
    {
      && g.commitOffset < HEADER_COMMITMENT_PERIOD && History()
      && (phase.PRESYNC? ==> PresyncOk())
      && (phase.REDOWNLOAD? ==> StoreOk() && !processAll)
      && (phase.FINAL? ==> commitments == [] && redownloaded == [])
    }

    constructor (g: Setting)
      requires g.commitOffset < HEADER_COMMITMENT_PERIOD
      ensures Valid() && phase == PRESYNC && this.g == g && presynced == []
    {
      this.g := g;
      phase := PRESYNC;
      currentWork := g.startWork;
      commitments := [];
      lastHeaderReceived := g.start;
      currentHeight := g.startHeight;
      redownloaded := [];
      bufferLastHeight, bufferLastHash, bufferFirstPrevHash, redownloadWork, processAll := 0, 0, 0, 0, false;
      presynced, accepted, checked, released, buffered := [], [], [], [], [];
    }

    method Finalize()
      requires g.commitOffset < HEADER_COMMITMENT_PERIOD && History()
      modifies this
      ensures Valid() && phase == FINAL
      ensures presynced == old(presynced) && accepted == old(accepted) && released == old(released)
    {
      hide Setting.Of, Setting.IsCommitHeight, Setting.AddWork;
      commitments := [];
      redownloaded := [];
      bufferLastHash := 0;
      bufferFirstPrevHash := 0;
      processAll := false;
      currentHeight := 0;
      phase := FINAL;
    }

    method ValidateAndProcessSingleHeader(current: Header) returns (ok: bool)
      requires phase == PRESYNC && PresyncOk() && current.hashPrevBlock == g.Of(presynced).lastHash
      modifies this
      ensures phase == PRESYNC
      ensures var t := g.Take(g.Of(old(presynced)), current);
              ok <==> t.permitted && |t.bits| <= g.maxCommitments
      ensures ok ==> PresyncOk() && presynced == old(presynced) + [current]
      ensures !ok ==> presynced == old(presynced) && NothingAccepted()
    {
      hide Setting.Of, Setting.IsCommitHeight, Setting.AddWork;
      Extend(g, presynced, current);
      var nextHeight := currentHeight + 1;
      if !g.permitted(nextHeight, lastHeaderReceived.nBits, current.nBits) {
        return false;
      }
      if g.IsCommitHeight(nextHeight) {
        commitments := commitments + [g.bit(g.hash(current))];
        if |commitments| > g.maxCommitments {
          return false;
        }
      }
      currentWork := g.AddWork(currentWork, current.nBits);
      lastHeaderReceived := current;
      currentHeight := nextHeight;
      presynced := presynced + [current];
      return true;
    }

    // The loop over one batch.
    method ProcessEach(headers: seq<Header>) returns (ok: bool)
      requires phase == PRESYNC && PresyncOk() && g.Of(presynced + headers).linked
      modifies this
      ensures phase == PRESYNC
      ensures var all := g.Of(old(presynced) + headers);
              ok <==> all.permitted && |all.bits| <= g.maxCommitments
      ensures ok ==> PresyncOk() && presynced == old(presynced) + headers
      ensures !ok ==> NothingAccepted()
    {
      ghost var before := presynced;
      assert before + headers[..0] == before;
      for i := 0 to |headers|
        invariant phase == PRESYNC && PresyncOk() && presynced == before + headers[..i]
      {
        BatchStep(g, before, headers, i);
        var fine := ValidateAndProcessSingleHeader(headers[i]);
        if !fine {
          return false;
        }
      }
      assert headers[..|headers|] == headers;
      return true;
    }

    /** Takes a continuous batch exactly when it connects, its difficulty is permitted and the
        commitments stay within bounds; moves on exactly when the work is then at the threshold. */
    method ValidateAndStoreHeadersCommitments(headers: seq<Header>) returns (ok: bool)
      requires phase == PRESYNC && PresyncOk() && headers != [] && Continuous(g, headers)
      modifies this
      ensures var all := g.Of(old(presynced) + headers);
              ok <==> all.linked && all.permitted && |all.bits| <= g.maxCommitments
      ensures ok ==> presynced == old(presynced) + headers
      ensures ok ==> if g.Of(presynced).work >= g.minimumWork then phase == REDOWNLOAD && StoreOk() else phase == PRESYNC && PresyncOk()
      ensures !ok ==> phase == PRESYNC
      ensures NothingAccepted()
    {
      ContinuousLinked(g, presynced, headers);
      if headers[0].hashPrevBlock != g.hash(lastHeaderReceived) {
        return false;
      }
      ok := ProcessEach(headers);
      if ok && currentWork >= g.minimumWork {
        BeginRedownload();
      }
    }

    method BeginRedownload()
      requires phase == PRESYNC && PresyncOk() && presynced != [] && currentWork >= g.minimumWork
      modifies this
      ensures phase == REDOWNLOAD && StoreOk() && presynced == old(presynced) && NothingAccepted()
    {
      hide Setting.Of, Setting.IsCommitHeight, Setting.AddWork;
      Basics(g, presynced);
      redownloaded := [];
      bufferLastHeight := g.startHeight;
      bufferFirstPrevHash := g.hash(g.start);
      bufferLastHash := g.hash(g.start);
      redownloadWork := g.startWork;
      phase := REDOWNLOAD;
    }

    /** When the second phase takes a header: it connects, its difficulty is permitted, and
        until the work threshold is met it matches the commitment stored for its height. */
    ghost predicate AcceptsNext(h: Header)
      reads this
    {
      var t := g.Take(g.Of(accepted), h);
      && t.linked && t.permitted
      && (t.reached || !g.IsCommitHeight(g.startHeight + t.count) ||
          (commitments != [] && commitments[0] == g.bit(g.hash(h))))
    }

    method ValidateAndStoreRedownloadedHeader(header: Header) returns (ok: bool)
      requires phase == REDOWNLOAD && StoreOk()
      modifies this
      ensures phase == REDOWNLOAD && presynced == old(presynced) && released == old(released)
      ensures ok <==> old(AcceptsNext(header))
      ensures ok ==> StoreOk() && accepted == old(accepted) + [header]
      ensures !ok ==> accepted == old(accepted) && buffered == old(buffered)
    {
      hide Setting.Of, Setting.IsCommitHeight, Setting.AddWork;
      ghost var t := g.Of(accepted);
      ok := Connects(header);
      if !ok {
        return;
      }
      ghost var waiting := commitments;
      ghost var t' := g.Take(t, header);
      ok := CountAndMatch(header);
      assert redownloadWork == t'.work && processAll == t'.reached;
      if ok {
        Extend(g, accepted, header);
        Append(released, buffered, header);
        if waiting != [] {
          MoveFront(t.bits, waiting);
        }
        assert !processAll ==> t'.bits + commitments == g.Of(presynced).bits;
        Store(header);
        assert g.Of(accepted) == t';
      }
    }

    // The link and difficulty checks.
    method Connects(header: Header) returns (ok: bool)
      requires ChainOk() && BufferOk() && (buffered == [] ==> accepted == [])
      ensures var t := g.Take(g.Of(accepted), header); ok <==> t.linked && t.permitted
    {
      hide Setting.Of, Setting.IsCommitHeight, Setting.AddWork;
      Basics(g, accepted);
      if header.hashPrevBlock != bufferLastHash {
        return false;
      }
      var previousBits := if redownloaded != [] then redownloaded[|redownloaded| - 1].nBits else g.start.nBits;
      ok := g.permitted(bufferLastHeight + 1, previousBits, header.nBits);
    }

    // Adds the header's work and, below the threshold, consumes the commitment for its height.
    method CountAndMatch(header: Header) returns (ok: bool)
      modifies `redownloadWork, `processAll, `commitments
      ensures redownloadWork == g.AddWork(old(redownloadWork), header.nBits)
      ensures processAll == (old(processAll) || redownloadWork >= g.minimumWork)
      ensures var due := !processAll && g.IsCommitHeight(bufferLastHeight + 1);
              && (ok <==> (due ==> old(commitments) != [] && old(commitments)[0] == g.bit(g.hash(header))))
              && (ok ==> commitments == if due then old(commitments)[1..] else old(commitments))
    {
      redownloadWork := g.AddWork(redownloadWork, header.nBits);
      if redownloadWork >= g.minimumWork {
        processAll := true;
      }
      if !processAll && g.IsCommitHeight(bufferLastHeight + 1) {
        if |commitments| == 0 {
          return false;
        }
        var expected := commitments[0];
        commitments := commitments[1..];
        return g.bit(g.hash(header)) == expected;
      }
      return true;
    }

    // Appends the header to the buffer.
    method Store(header: Header)
      modifies `redownloaded, `bufferLastHeight, `bufferLastHash, `accepted, `buffered, `checked
      ensures redownloaded == old(redownloaded) + [Compress(header)]
      ensures bufferLastHeight == old(bufferLastHeight) + 1 && bufferLastHash == g.hash(header)
      ensures accepted == old(accepted) + [header] && buffered == old(buffered) + [header]
      ensures checked == if processAll then old(checked) else accepted
    {
      redownloaded := redownloaded + [Compress(header)];
      bufferLastHeight := bufferLastHeight + 1;
      bufferLastHash := g.hash(header);
      accepted := accepted + [header];
      buffered := buffered + [header];
      if !processAll {
        checked := accepted;
      }
    }

    /** Hands out what is ready: everything once the work is shown, else whatever has a full
        buffer on top. Compression loses nothing. */
    method PopHeadersReadyForAcceptance() returns (ret: seq<Header>)
      requires phase == REDOWNLOAD && ChainOk() && BufferOk()
      modifies this
      ensures phase == REDOWNLOAD && BufferOk() && presynced == old(presynced) && accepted == old(accepted)
      ensures ChainOk() && checked == old(checked) && commitments == old(commitments) && processAll == old(processAll)
      ensures released == old(released) + ret
      ensures if processAll then buffered == [] else
              |buffered| == if old(|buffered|) > REDOWNLOAD_BUFFER_SIZE then REDOWNLOAD_BUFFER_SIZE else old(|buffered|)
    {
      hide Setting.Of;
      ret := [];
      while |redownloaded| > REDOWNLOAD_BUFFER_SIZE || (|redownloaded| > 0 && processAll)
        invariant phase == REDOWNLOAD && ChainOk() && BufferOk() && presynced == old(presynced)
        invariant accepted == old(accepted)
        invariant checked == old(checked) && commitments == old(commitments) && processAll == old(processAll)
        invariant released == old(released) + ret
        invariant |buffered| <= old(|buffered|)
        invariant !processAll ==> |buffered| == old(|buffered|) || |buffered| >= REDOWNLOAD_BUFFER_SIZE
        decreases |redownloaded|
      {
        ghost var h := buffered[0];
        LinkedAt(g, released, buffered);
        Extend(g, released, h);
        ret := ret + [redownloaded[0].GetFullHeader(bufferFirstPrevHash)];
        redownloaded := redownloaded[1..];
        bufferFirstPrevHash := g.hash(ret[|ret| - 1]);
        Shift(released, buffered);
        released := released + [h];
        buffered := buffered[1..];
      }
    }

    /** A header served again is always accepted. */
    lemma ServedAgain(h: Header)
      requires StoreOk() && accepted + [h] <= presynced
      ensures AcceptsNext(h)
    {
      hide Setting.Of, Setting.IsCommitHeight, Setting.AddWork;
      var n := |accepted|;
      assert presynced[..n + 1] == accepted + [h];
      Prefix(g, presynced, n + 1);
      Extend(g, accepted, h);
      Basics(g, accepted);
      if !processAll {
        RepeatedBit(g.Of(accepted).bits, commitments, g.bit(g.hash(h)), g.Of(presynced).bits);
      }
    }

    /** Past the first phase's headers the work was enough, so that only linked and permitted counts. */
    lemma ServedBeyond(h: Header, all: seq<Header>)
      requires StoreOk() && presynced <= accepted && accepted + [h] <= all && g.Of(all).linked && g.Of(all).permitted
      ensures AcceptsNext(h)
    {
      hide Setting.Of, Setting.IsCommitHeight, Setting.AddWork;
      var n := |accepted|;
      assert all[..n + 1] == accepted + [h];
      assert accepted[..|presynced|] == presynced;
      Prefix(g, all, n + 1);
      Prefix(g, accepted, |presynced|);
      Extend(g, accepted, h);
    }

    /** The second download so far is the start of what the first one saw, or continues it with
        linked and permitted headers. */
    ghost predicate Repeats(all: seq<Header>)
      reads this
    {
      all <= presynced || (presynced <= all && g.Of(all).linked && g.Of(all).permitted)
    }

    lemma RepeatedHeader(h: Header, all: seq<Header>)
      requires StoreOk() && Repeats(all) && accepted + [h] <= all
      ensures AcceptsNext(h)
    {
      hide Setting.Of, StoreOk, AcceptsNext;
      if |accepted| < |presynced| {
        ServedAgain(h);
      } else {
        ServedBeyond(h, all);
      }
    }

    // The loop over one batch in the second phase.
    method StoreEach(headers: seq<Header>) returns (ok: bool)
      requires phase == REDOWNLOAD && StoreOk() && (released != [] ==> |buffered| >= REDOWNLOAD_BUFFER_SIZE)
      modifies this
      ensures phase == REDOWNLOAD && presynced == old(presynced) && released == old(released)
      ensures ok ==> StoreOk() && accepted == old(accepted) + headers
      ensures old(Repeats(accepted + headers)) ==> ok
      ensures old(accepted) <= accepted <= old(accepted) + headers
      ensures released != [] ==> |buffered| >= REDOWNLOAD_BUFFER_SIZE
      ensures History()
    {
      hide Setting.Of, Setting.IsCommitHeight, Setting.AddWork;
      ghost var before := accepted;
      for i := 0 to |headers|
        invariant phase == REDOWNLOAD && StoreOk() && presynced == old(presynced) && released == old(released)
        invariant accepted == before + headers[..i]
        invariant released != [] ==> |buffered| >= REDOWNLOAD_BUFFER_SIZE
      {
        assert before + headers[..i] + [headers[i]] == before + headers[..i + 1] <= before + headers;
        if Repeats(before + headers) {
          RepeatedHeader(headers[i], before + headers);
        }
        assert !processAll ==> g.Of(accepted).bits <= g.Of(presynced).bits;
        var fine := ValidateAndStoreRedownloadedHeader(headers[i]);
        if !fine {
          return false;
        }
      }
      assert headers[..|headers|] == headers;
      return true;
    }

    method ProcessPresync(received: seq<Header>, full: bool) returns (ret: ProcessingResult)
      requires Valid() && phase == PRESYNC && received != [] && Continuous(g, received)
      modifies this
      ensures Valid() && accepted == [] && released == [] && ret.powValidated == []
      ensures var all := g.Of(old(presynced) + received);
              ret.success <==> all.linked && all.permitted && |all.bits| <= g.maxCommitments
      ensures ret.success && phase != FINAL ==> presynced == old(presynced) + received
      ensures phase == REDOWNLOAD <==> ret.success && g.Of(old(presynced) + received).work >= g.minimumWork
      ensures phase == PRESYNC <==> ret.success && full && g.Of(old(presynced) + received).work < g.minimumWork
      ensures ret.requestMore <==> phase != FINAL
    {
      hide Setting.Of, Setting.IsCommitHeight, Setting.AddWork;
      var ok := ValidateAndStoreHeadersCommitments(received);
      var more := ok && (full || phase == REDOWNLOAD);
      ret := ProcessingResult([], ok, more);
      Basics(g, []);
      if !more {
        Finalize();
      }
    }

    method ProcessRedownload(received: seq<Header>, full: bool) returns (ret: ProcessingResult)
      requires Valid() && phase == REDOWNLOAD && received != []
      modifies this
      ensures Valid() && phase != PRESYNC && presynced == old(presynced)
      ensures released == old(released) + ret.powValidated
      ensures old(accepted) <= accepted <= old(accepted) + received
      ensures old(Repeats(accepted + received)) ==> ret.success
      ensures ret.success ==> accepted == old(accepted) + received
      ensures ret.success && g.Of(accepted).reached ==> released == accepted && phase == FINAL
      ensures phase == REDOWNLOAD <==> ret.success && full && !g.Of(accepted).reached
      ensures ret.requestMore <==> phase != FINAL
    {
      hide Setting.Of, Setting.IsCommitHeight, Setting.AddWork;
      var ok := StoreEach(received);
      ret := ProcessingResult([], ok, false);
      if ok {
        var ready := PopHeadersReadyForAcceptance();
        var done := |redownloaded| == 0 && processAll;
        ret := ProcessingResult(ready, true, !done && full);
        assert processAll ==> released == accepted by { assert released + [] == released; }
      }
      if !ret.requestMore {
        Finalize();
      }
    }

    /** Processes the next message of the peer; the caller has checked that it is continuous. */
    method ProcessNextHeaders(received: seq<Header>, full: bool) returns (ret: ProcessingResult)
      requires Valid() && Continuous(g, received)
      modifies this
      ensures Valid() && |commitments| <= g.maxCommitments
      ensures released == old(released) + ret.powValidated && old(accepted) <= accepted
      // The state only moves forward.
      ensures received == [] || old(phase) == FINAL ==> !ret.success && phase == old(phase) && presynced == old(presynced)
      // The first phase takes a batch exactly if it is linked, permitted and within bounds; it moves on
      // exactly once the work is enough, and ends with a message that is not full.
      ensures received != [] && old(phase) == PRESYNC ==>
        var all := g.Of(old(presynced) + received);
        && (ret.success <==> all.linked && all.permitted && |all.bits| <= g.maxCommitments)
        && (phase == REDOWNLOAD <==> ret.success && all.work >= g.minimumWork)
        && (phase == PRESYNC <==> ret.success && full && all.work < g.minimumWork)
        && (phase != FINAL ==> presynced == old(presynced) + received) && accepted == [] && released == []
      ensures old(phase) == REDOWNLOAD ==> phase != PRESYNC && presynced == old(presynced)
      // Serving the same headers again never fails, and enough work releases everything.
      ensures received != [] && old(phase) == REDOWNLOAD && old(Repeats(accepted + received)) ==> ret.success
      ensures received != [] && old(phase) == REDOWNLOAD && ret.success ==> accepted == old(accepted) + received
      ensures received != [] && old(phase) == REDOWNLOAD && ret.success && g.Of(accepted).reached ==> released == accepted && phase == FINAL
      ensures received != [] && old(phase) == REDOWNLOAD && ret.success && full && !g.Of(accepted).reached ==> phase == REDOWNLOAD
    {
      hide Setting.Of, Setting.IsCommitHeight, Setting.AddWork;
      ret := ProcessingResult([], false, false);
      if received == [] || phase == FINAL {
      } else if phase == PRESYNC {
        ret := ProcessPresync(received, full);
      } else {
        ret := ProcessRedownload(received, full);
      }
    }
  }

  lemma RepeatedBit(bits: seq<bool>, waiting: seq<bool>, b: bool, all: seq<bool>)
    requires bits + waiting == all
    ensures bits + [b] <= all ==> waiting != [] && waiting[0] == b
  {
    if bits + [b] <= all {
      assert all[|bits|] == b;
    }
  }

  lemma {:induction false} LinkedAt(g: Setting, a: seq<Header>, b: seq<Header>)
    requires g.Of(a + b).linked && b != []
    ensures b[0].hashPrevBlock == g.Of(a).lastHash
  {
    var all := a + b;
    Prefix(g, all, |a| + 1);
    assert all[..|a| + 1] == a + [b[0]];
    Extend(g, a, b[0]);
  }

  lemma Shift(a: seq<Header>, b: seq<Header>)
    requires b != []
    ensures a + [b[0]] + b[1..] == a + b
    ensures CompressAll(b)[1..] == CompressAll(b[1..])
  {
  }

  // ---------- Whole syncs ----------

  /** Everything ever handed out forms a chain from the start, header for header what the peer
      served; and a header handed out before the second download showed enough work has at least
      10071 accepted headers and 17 matched commitment bits above it. */
  lemma ReleasedAreBuried(s: HeadersSyncState, i: nat)
    requires s.Valid() && i < |s.released| && !s.g.Of(s.accepted).reached
    ensures s.released <= s.accepted && s.g.Linked(s.released)
    ensures |s.accepted| - (i + 1) >= REDOWNLOAD_BUFFER_SIZE
    ensures s.g.Of(s.accepted).bits <= s.g.Of(s.presynced).bits
    ensures |s.g.Of(s.accepted).bits| - |s.g.Of(s.accepted[..i + 1]).bits| >= 17
  {
    hide Setting.Of, Setting.IsCommitHeight, Setting.AddWork;
    ReleasedAreLinked(s);
    BufferHoldsCommitments(s.g, s.accepted, i + 1);
  }

  lemma ReleasedAreLinked(s: HeadersSyncState)
    requires s.Valid()
    ensures s.released <= s.accepted && s.g.Linked(s.released)
  {
    hide Setting.Of, Setting.IsCommitHeight, Setting.AddWork;
    Prefix(s.g, s.accepted, |s.released|);
    assert s.accepted[..|s.released|] == s.released;
    TallyLinked(s.g, s.released);
  }

  function Concat(batches: seq<seq<Header>>): seq<Header> {
    if batches == [] then [] else batches[0] + Concat(batches[1..])
  }

  lemma ConcatCut(before: seq<Header>, batches: seq<seq<Header>>, i: nat)
    requires i < |batches|
    ensures before + Concat(batches[i..]) == before + batches[i] + Concat(batches[i + 1..])
  {
    assert batches[i..][1..] == batches[i + 1..];
  }

  /** A peer's messages: none empty, each continuous. */
  ghost predicate Messages(g: Setting, batches: seq<seq<Header>>) {
    forall i :: 0 <= i < |batches| ==> batches[i] != [] && Continuous(g, batches[i])
  }

  // A prefix of a linked and permitted chain that agrees with what the first phase saw repeats it.
  lemma {:induction false} PrefixRepeats(s: HeadersSyncState, all: seq<Header>, whole: seq<Header>)
    requires all <= whole && s.presynced <= whole && s.g.Of(whole).linked && s.g.Of(whole).permitted
    ensures s.Repeats(all)
  {
    hide Setting.Of;
    Prefix(s.g, whole, |all|);
    assert whole[..|all|] == all;
  }

  /** A peer that serves in the second phase what it served in the first, possibly continued and split
      into messages in any way, completes the sync: no step fails and every header taken is handed out.
      Only the last message need not be full. */
  method ServeAgain(s: HeadersSyncState, batches: seq<seq<Header>>, lastFull: bool) returns (out: seq<Header>)
    requires s.Valid() && s.phase == REDOWNLOAD && s.accepted == [] && s.released == [] && Messages(s.g, batches)
    requires var whole := Concat(batches); s.presynced <= whole && s.g.Of(whole).linked && s.g.Of(whole).permitted
    modifies s
    ensures s.Valid() && s.phase == FINAL && s.presynced == old(s.presynced)
    ensures out == s.released == s.accepted && s.accepted <= Concat(batches) && s.g.Of(s.accepted).reached
  {
    hide Setting.Of, Setting.IsCommitHeight, Setting.AddWork, HeadersSyncState.Valid, HeadersSyncState.Repeats, Concat;
    out := [];
    ghost var whole := Concat(batches);
    assert batches[0..] == batches;
    var i := 0;
    while i < |batches| && s.phase == REDOWNLOAD
      invariant 0 <= i <= |batches| && s.Valid() && s.phase != PRESYNC && s.presynced == old(s.presynced)
      invariant s.phase == REDOWNLOAD ==> s.accepted + Concat(batches[i..]) == whole && out == s.released && (i < |batches| || i == 0)
      invariant s.phase == FINAL ==> out == s.released == s.accepted && s.accepted <= whole && s.g.Of(s.accepted).reached
      decreases |batches| - i
    {
      ConcatCut(s.accepted, batches, i);
      PrefixRepeats(s, s.accepted + batches[i], whole);
      if i == |batches| - 1 { AllServed(s, whole, batches[i..]); }
      var ret := s.ProcessNextHeaders(batches[i], i < |batches| - 1 || lastFull);
      out := out + ret.powValidated;
      i := i + 1;
    }
    if s.phase == REDOWNLOAD {
      NothingServed(s, batches);
    }
  }

  lemma NothingServed(s: HeadersSyncState, batches: seq<seq<Header>>)
    requires s.Valid() && s.phase == REDOWNLOAD && s.presynced <= Concat(batches)
    ensures batches != []
  {
  }

  lemma {:induction false} AllServed(s: HeadersSyncState, whole: seq<Header>, rest: seq<seq<Header>>)
    requires s.Valid() && s.phase == REDOWNLOAD && |rest| == 1 && s.presynced <= whole
    ensures s.accepted + Concat(rest) == whole ==> s.accepted + rest[0] == whole && s.g.Of(s.accepted + rest[0]).reached
  {
    hide Setting.Of, Setting.IsCommitHeight, Setting.AddWork;
    assert Concat(rest[1..]) == [];
    Prefix(s.g, whole, |s.presynced|);
    assert whole[..|s.presynced|] == s.presynced;
  }

  /** A whole synchronisation with a peer whose chain is linked, permitted, within the commitment bound
      and has enough work: it is served once until the work is seen, then again from the start, possibly
      longer by then. Whatever the messages, the sync ends with a linked chain of enough work, header for
      header the peer's. */
  method WholeSync(g: Setting, first: seq<seq<Header>>, firstFull: bool, second: seq<seq<Header>>, secondFull: bool)
      returns (s: HeadersSyncState, out: seq<Header>)
    requires g.commitOffset < HEADER_COMMITMENT_PERIOD && first != [] && Messages(g, first) && Messages(g, second)
    requires var t := g.Of(Concat(first)); t.linked && t.permitted && |t.bits| <= g.maxCommitments && t.work >= g.minimumWork
    requires var t := g.Of(Concat(second)); Concat(first) <= Concat(second) && t.linked && t.permitted
    ensures s.Valid() && s.phase == FINAL
    ensures out == s.released && out <= Concat(second) && g.Linked(out) && g.Of(out).reached
  {
    hide Setting.Of, Setting.IsCommitHeight, Setting.AddWork, HeadersSyncState.Valid, Concat;
    s := new HeadersSyncState(g);
    Present(s, first, firstFull);
    out := ServeAgain(s, second, secondFull);
    ReleasedAreLinked(s);
  }

  /** The first phase of it: the messages are taken until the work is enough. */
  method Present(s: HeadersSyncState, batches: seq<seq<Header>>, lastFull: bool)
    requires s.Valid() && s.phase == PRESYNC && s.presynced == [] && batches != [] && Messages(s.g, batches)
    requires var t := s.g.Of(Concat(batches)); t.linked && t.permitted && |t.bits| <= s.g.maxCommitments && t.work >= s.g.minimumWork
    modifies s
    ensures s.Valid() && s.phase == REDOWNLOAD && s.accepted == [] && s.released == [] && s.presynced <= Concat(batches)
  {
    hide Setting.Of, Setting.IsCommitHeight, Setting.AddWork, HeadersSyncState.Valid, Concat;
    ghost var whole := Concat(batches);
    assert batches[0..] == batches;
    var i := 0;
    while i < |batches| && s.phase == PRESYNC
      invariant 0 <= i <= |batches| && s.Valid()
      invariant s.phase != FINAL && s.presynced <= whole
      invariant s.phase == PRESYNC ==> i < |batches| && s.presynced + Concat(batches[i..]) == whole
      invariant s.phase == REDOWNLOAD ==> s.accepted == [] && s.released == []
      decreases |batches| - i
    {
      ConcatCut(s.presynced, batches, i);
      ghost var all := s.presynced + batches[i];
      assert whole[..|all|] == all;
      Prefix(s.g, whole, |all|);
      if i == |batches| - 1 {
        NoneLeft(batches[i + 1..]);
        assert all == whole;
      }
      var _ := s.ProcessNextHeaders(batches[i], i < |batches| - 1 || lastFull);
      i := i + 1;
    }
  }

  lemma NoneLeft(batches: seq<seq<Header>>)
    requires batches == []
    ensures Concat(batches) == []
  {
  }
}
