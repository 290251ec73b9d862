# Verified model of Blackcoin core data structures and codecs

This project models ten parts of the Blackcoin node and proves what each of them is for, over all
inputs, all runs or all interleavings.

- **Coins** (`coins_*.dfy`). Caches of unspent coins stacked on a database. Entries carry DIRTY and
  FRESH flags that decide what is written down and what may be forgotten. The caches are classes with
  the source's fields; the main result is that a stack of any depth behaves like a stack of plain
  maps of unspent coins under every permitted run.
- **Address manager** (`addrman_*.dfy`). Entries, an address index, a random order, two bucket tables
  and counters, all updated in place. One invariant ties them together. Every operation keeps it, the
  built-in consistency check passes over every run, any file is refused or loads into it, and writing
  and reading back preserves everything that is stored.
- **Check queue** (`checkqueue.dfy`). One master and any number of workers as a state machine whose
  steps are the critical sections and the evaluations between them.
- **Header sync** (`headerssync.dfy`). The two-phase download of headers that keeps one bit in several
  hundred during the first phase and compares it during the second.
- **Block index** (`chain.dfy`). Skip-list ancestors, the active chain, fork points and locators
  against naive walking.
- **256-bit arithmetic and compact targets** (`numbers.dfy`, `limbs.dfy`, `arith256.dfy`,
  `compact.dfy`). Limb arrays updated in place against the numbers they stand for, up to a block's
  proof of work.
- **Cuckoo cache** (`cuckoo_*.dfy`). Eviction chains, epochs and packed flags.
- **Base58** (`radix.dfy`, `base58_*.dfy`) and **Bech32** (`bech32_*.dfy`). Both directions of the
  round trip. For Bech32 also which errors the checksum finds: all within six consecutive values, and
  up to three anywhere, which takes the field with 1024 elements behind it.
- **Compact blocks** (`compact_*.dfy` without `compact.dfy`). Announcing, laying out and rebuilding a
  block from short ids.

`prelude.dfy` holds what several parts share. Hash functions, short ids, difficulty rules and the
block check are parameters, so the results hold for any of them. Randomness and the order in which
hash tables are traversed are nondeterministic. The clock is a parameter.

## What the proofs show about the code

- `AddCoin` without permission to overwrite breaks the FRESH discipline exactly if the view already
  has an unspent coin there; when it throws, the memory count has already been lowered.
- The consistency check of the address manager passes states with stale keys in its address index
  and states with entries of a network that has no counter. Everything else it looks at is exact.
- Recording a success at time zero makes that check fail if the address is tried or is moved to the
  tried table by it, which happens when its place there is free; a later success of the address at a
  positive time repairs it. Positive times never make it fail.
- The example constant in the comment on the syndrome of Bech32, 0x31edd3c4, is none of the constants
  its generation gives; e^999, e^998 and e^997 as the source defines e pack to 0x3d0195bd.
- The comment on eviction in the cuckoo cache says the first eviction uses the first location; the
  code uses the second. The model follows the code.
- The flags of the cuckoo cache cover every index exactly if the size plus 7 fits 32 bits.
- The layout of a compact block accepts up to 800000 transactions by its own limit but stores places
  in 16 bits. That is exact up to 65536; reading from the network refuses more than 65535.
- Filling a block with too few transactions returns an error after the transactions before the first
  unfilled gap have been moved out.
- The step of a block locator leaves a signed 32-bit number exactly above height 2^30 + 9.
- A negative length limit of Base58 decoding still admits the empty result.

## Model

| member | source | states |
|---|---|---|
| `CoinsModel.OnlyDocumentedStates` | src/coins.h:108-122 | In a stack whose flags are disciplined every entry is in one of the five documented combinations of spent, FRESH and DIRTY. |
| `CoinsModel.NeverMisapplied` | src/coins.cpp:334-342 | The "FRESH flag misapplied" error can never be raised by a child whose flags are true of the parent view. |
| `CoinsModel.MergeShowsChild` | src/coins.cpp:301-371 | Merging a disciplined child into its parent entry by entry makes the parent show exactly the child's unspent coins, and the parent stays disciplined towards its own base. |
| `CoinsCache.DatabaseShowsChild` | src/txdb.cpp:120-143 | Writing only the DIRTY entries to the database is enough: afterwards the database alone shows what the child showed. |
| `CoinsCache.CoinsDB.BatchWrite` | src/txdb.cpp:94-153 | After a batch the database shows the old coins overlaid with the batch, and the batch is emptied exactly when erasing was asked for. |
| `CoinsCache.CoinsViewCache.OverDatabase` | src/coins.cpp:129-132 | A new cache shows what the database shows. |
| `CoinsCache.CoinsViewCache.OverCache` | src/coins.cpp:129-132 | A new cache on another cache shows what that one shows and leaves it as it was. |
| `CoinsCache.CoinsViewCache.FetchCoin` | src/coins.cpp:143-158 | Pulling an entry up through any number of levels changes what no level shows; nothing present means no unspent coin. |
| `CoinsCache.CoinsViewCache.GetCoin` | src/coins.cpp:160-167 | Finds a coin exactly if the view has it unspent, and returns that coin; no level's view changes. |
| `CoinsCache.CoinsViewCache.HaveCoin` | src/coins.cpp:281-284 | True exactly for the unspent coins of the view; no level's view changes. |
| `CoinsCache.CoinsViewCache.AccessCoin` | src/coins.cpp:272-279 | Returns the view's unspent coin, and a spent one exactly if there is none. |
| `CoinsCache.AddContract` | src/coins.cpp:169-208 | The FRESH flag AddCoin sets is true of the parent if and only if overwriting was allowed or the view has no unspent coin there. |
| `CoinsCache.CoinsViewCache.AddCoin` | src/coins.cpp:169-208 | Throws exactly on an unspent cached coin without permission to overwrite (the memory count is then already lowered); otherwise the view gains the coin, and the flag discipline survives if and only if the caller kept the documented contract. |
| `CoinsCache.CoinsViewCache.SpendCoin` | src/coins.cpp:247-268 | The view loses exactly this coin and hands it out, spent or absent coins come out spent, the views below are unchanged and the discipline is kept on both the erasing and the marking branch. |
| `CoinsCache.CoinsViewCache.Uncache` | src/coins.cpp:403-417 | Drops only an entry that is neither DIRTY nor FRESH, so no view changes. |
| `CoinsCache.CoinsViewCache.BatchWrite` | src/coins.cpp:301-371 | Throws exactly if some child entry is FRESH over an unspent parent entry; a disciplined child never makes it throw, and the parent then shows the child's coins. |
| `CoinsCache.CoinsViewCache.Flush` | src/coins.cpp:373-384 | Never throws on a disciplined stack, empties the cache, leaves this view as it was and makes the parent show it; nothing below the parent changes. |
| `CoinsCache.CoinsViewCache.Sync` | src/coins.cpp:386-401 | As Flush, but exactly the unspent entries stay, without flags. |
| `CoinsCache.CoinsViewCache.SanityCheck` | src/coins.cpp:457-472 | Passes exactly if all entries are in documented states and the memory count is exact; every disciplined cache passes. |
| `CoinsStack.MaintainAt` | src/coins.cpp:373-417 | Flush, Sync, Uncache or a lookup at any depth acts on a stack of plain maps of unspent coins as specified and never changes what the top shows. |
| `CoinsStack.CacheStack.Step` | src/coins.cpp:143-417 | One permitted operation on a stack of any depth never throws and does to the stack what it does to a stack of plain maps. |
| `CoinsStack.CacheStack.Run` | src/coins.cpp:143-417 | Over every permitted sequence of operations, levels pushed and popped included, the caches with their flags refine a stack of plain maps of unspent coins, and nothing ever throws. |
| `CoinsCursor.CursorListsOverlay` | src/coins.cpp:42-125 | The base cursor's coins that the cache does not mention, followed by the cache's own, list the cached view: every unspent coin, each outpoint once, nothing spent. |
| `CoinsCursor.StackCursorListsView` | src/coins.cpp:42-137 | The same for cursors stacked to any depth. |
| `CoinsCursor.CacheCursor.constructor` | src/coins.cpp:82-90 | A new cursor has that whole listing ahead of it. |
| `CoinsCursor.CacheCursor.Next` | src/coins.cpp:119-124 | Moves past exactly one item of the listing; the cursor is valid exactly while items remain and shows the first of them. |
| `CheckQueue.BatchSize` | src/checkqueue.h:71-128 | A thread takes at least one check, no more than the batch limit and never more than are queued. |
| `CheckQueue.StepKeepsInv` | src/checkqueue.h:71-128 | Every step of every thread keeps the protocol invariant: the counters are exact, every added check is queued, in one batch or finished, and the shared verdict is right. |
| `CheckQueue.ReachableInv` | src/checkqueue.h:71-182 | The invariant holds in every state of every interleaving with any number of workers, lost and spurious wake-ups included. |
| `CheckQueue.WaitIsExact` | src/checkqueue.h:158-162 | In every run every Wait returned true if and only if all checks added for it pass, although evaluation is skipped after a failure. |
| `CheckQueue.TakenOnce` | src/checkqueue.h:110-120 | A check added once and held by a thread is neither queued nor finished nor held by another thread. |
| `CheckQueue.BlockedMasterHasHelper` | src/checkqueue.h:80-103 | While the master is blocked without a pending notification some worker holds an unfinished batch and can take a step: the notification cannot be missed. |
| `CheckQueue.ProductiveStepsShrinkWork` | src/checkqueue.h:71-128 | Evaluating a check and handing in a batch strictly reduce the work left; waking and entering never add any. |
| `CheckQueue.FiniteProgress` | src/checkqueue.h:71-128 | In every stretch of every run in which nothing is added, evaluations and hand-ins together are at most the work left at its start. |
| `HeadersSync.TallyLinked` | src/headerssync.cpp:143-217 | What the single pass over the headers remembers of their links says exactly that each header names the one before it. |
| `HeadersSync.CommitmentsCount` | src/headerssync.cpp:181-217 | A chain of n headers yields exactly one commitment for each height that is the offset modulo the period. |
| `HeadersSync.BufferHoldsCommitments` | src/headerssync.cpp:19-27 | Any window as long as the redownload buffer contains at least 17 commitment heights. |
| `HeadersSync.HeadersSyncState.constructor` | src/headerssync.cpp:29-50 | A new state is valid and in the first phase. |
| `HeadersSync.HeadersSyncState.ValidateAndProcessSingleHeader` | src/headerssync.cpp:181-217 | Accepts a header exactly if its difficulty transition is permitted and the commitments stay within their bound. |
| `HeadersSync.HeadersSyncState.ValidateAndStoreHeadersCommitments` | src/headerssync.cpp:143-179 | Accepts a batch exactly if the whole chain so far is linked, permitted and within the commitment bound; turns to redownloading exactly when its work suffices. |
| `HeadersSync.HeadersSyncState.ValidateAndStoreRedownloadedHeader` | src/headerssync.cpp:219-282 | Accepts exactly a header that is linked, permitted and, until enough work was seen, matches the next commitment. |
| `HeadersSync.HeadersSyncState.PopHeadersReadyForAcceptance` | src/headerssync.cpp:284-298 | Releases headers in order, rebuilt from their compressed form, and keeps exactly a full buffer back until the work suffices. |
| `HeadersSync.HeadersSyncState.ProcessNextHeaders` | src/headerssync.cpp:72-141 | Keeps the whole invariant with bounded memory. The first phase takes a batch exactly if the chain so far is linked, permitted and within bounds, moves on exactly once the work suffices and ends with a message that is not full; in the second phase headers served again, and linked and permitted ones beyond them, are never refused, and everything is released once the work suffices. |
| `HeadersSync.ReleasedAreLinked` | src/headerssync.cpp:284-298 | At any time the released headers are a linked prefix of the redownloaded ones. |
| `HeadersSync.ReleasedAreBuried` | src/headerssync.cpp:219-298 | Until enough work was redownloaded every released header is buried under a full buffer and at least 17 matched commitments of the first phase. |
| `HeadersSync.ServeAgain` | src/headerssync.cpp:72-298 | A peer that serves the same chain again, possibly continued and cut into any messages of which the last need not be full, gets through: no message is refused and every header taken is released. |
| `HeadersSync.Present` | src/headerssync.cpp:72-217 | The first phase of a sync with a sufficient chain in any messages always arrives at the second. |
| `HeadersSync.WholeSync` | src/headerssync.cpp:29-298 | From a new state through both phases: a peer with a linked, permitted chain of sufficient work within the commitment bound always completes the sync, and what is released is linked, has sufficient work and is a prefix of the peer's chain. |
| `ChainIndex.InvertLowestOneMeaning` | src/chain.cpp:83-83 | n & (n - 1) clears bit k of every odd multiple of 2^k. |
| `ChainIndex.LowestOneCleared` | src/chain.cpp:83-83 | Every positive number is an odd multiple of a power of two, and n & (n - 1) takes exactly that power away. |
| `ChainIndex.GetSkipHeight` | src/chain.cpp:86-94 | Skips always go strictly down. |
| `ChainIndex.BlockIndex.GetAncestor` | src/chain.cpp:96-121 | The skip-list search finds the block that naive walking finds at every height, and nothing at heights out of range. |
| `ChainIndex.BlockIndex.BuildSkip` | src/chain.cpp:128-132 | Keeps every skip pointer of the tree right, which is what the search relies on. |
| `ChainIndex.Chain.SetTip` | src/chain.cpp:24-32 | The chain becomes the path from genesis to the new tip, whatever path it held and although it stops at the first block that agrees. |
| `ChainIndex.Chain.FindFork` | src/chain.cpp:63-72 | Finds the highest block of the chain that is an ancestor of the given one, and nothing only if there is none. |
| `ChainIndex.LastCommonAncestor` | src/chain.cpp:175-190 | Finds the highest common ancestor; the closing assertion holds, and there is none exactly if the first blocks differ. |
| `ChainIndex.HighestCommonUnique` | src/chain.cpp:175-190 | The highest common ancestor is unique and does not depend on the order of the branches. |
| `ChainIndex.ForkIsLastCommonAncestor` | src/chain.cpp:63-190 | Forking off the active chain and the last common ancestor with its tip are the same block. |
| `ChainIndex.LocatorDescends` | src/chain.cpp:34-51 | Locator heights go strictly down and end at genesis. |
| `ChainIndex.LocatorEntries` | src/chain.cpp:34-51 | The entries are the hashes of the block's ancestors at the locator heights. |
| `ChainIndex.LocatorLength` | src/chain.cpp:34-51 | A locator has at most m + 12 entries if and only if the height is at most 2^(m+1) + 9: its length is logarithmic. |
| `ChainIndex.LocatorStepFits` | src/chain.cpp:36-48 | The doubling step fits a signed 32-bit number if and only if the height is at most 2^30 + 9. |
| `Arith256.Uint256.AddAssign` | src/arith_uint256.h:130-140 | Limb addition with carries is addition modulo 2^256, also of a number to itself. |
| `Arith256.Uint256.Complement` | src/arith_uint256.h:64-70 | Complement is subtraction from 2^256 - 1. |
| `Arith256.Uint256.Increment` | src/arith_uint256.h:168-175 | Rippling increment is addition of one modulo 2^256. |
| `Arith256.Uint256.Negate` | src/arith_uint256.h:72-79 | Negation modulo 2^256. |
| `Arith256.Uint256.SubAssign` | src/arith_uint256.h:142-146 | Subtraction modulo 2^256. |
| `Arith256.Uint256.CompareTo` | src/arith_uint256.cpp:110-120 | Limb-wise comparison from the top orders the numbers. |
| `Arith256.Uint256.EqualTo` | src/arith_uint256.cpp:122-134 | Equality of the number with a 64-bit one. |
| `Arith256.Uint256.ShiftLeft` | src/arith_uint256.cpp:22-37 | Multiplication by a power of two modulo 2^256, for every shift. |
| `Arith256.Uint256.ShiftRight` | src/arith_uint256.cpp:39-54 | Division by a power of two, for every shift. |
| `Arith256.Uint256.Bits` | src/arith_uint256.cpp:180-193 | The position of the highest set bit. |
| `Arith256.Uint256.MulAssign32` | src/arith_uint256.cpp:56-66 | Multiplication by a limb modulo 2^256. |
| `Arith256.Uint256.MulAssign` | src/arith_uint256.cpp:68-82 | Schoolbook multiplication is multiplication modulo 2^256, also of a number by itself. |
| `Arith256.Uint256.DivAssign` | src/arith_uint256.cpp:84-108 | Binary long division gives the integer quotient and throws exactly on division by zero, also of a number by itself. |
| `Arith256.Uint256.Assign64` | src/arith_uint256.h:83-90 | Assignment from a 64-bit number. |
| `Arith256.Uint256.GetLow64` | src/arith_uint256.h:240-244 | The number modulo 2^64. |
| `Compact.OverflowExact` | src/arith_uint256.cpp:213-216 | The three-way overflow test is true if and only if mantissa times 256^(exponent - 3) does not fit 256 bits. |
| `Compact.SetCompact` | src/arith_uint256.cpp:200-218 | Gives the target of a compact number modulo 2^256, with overflow and negative reported exactly. |
| `Compact.GetCompact` | src/arith_uint256.cpp:220-241 | Gives the canonical compact form of the number, with the sign bit only on a non-zero mantissa; the assertions in it hold. |
| `Compact.RoundTripClose` | src/arith_uint256.cpp:200-241 | Decoding an encoded number never exceeds it, never overflows and loses less than one unit of the mantissa. |
| `Compact.Reencode` | src/arith_uint256.cpp:200-241 | Encoding is stable: the number a compact form stands for encodes to that form again. |
| `Compact.TargetNotMaximal` | src/chain.cpp:141-154 | A target that does not overflow is never 2^256 - 1, so the divisor of the proof is not zero. |
| `Compact.ProofIdentity` | src/chain.cpp:149-153 | ~t / (t + 1) + 1 equals the quotient of 2^256 by t + 1. |
| `Compact.GetBlockProof` | src/chain.cpp:141-154 | A block's work is the quotient of 2^256 by its target plus one, and zero for negative, overflowing and zero targets. |
| `AddrMan.AddrManImpl.constructor` | src/addrman.cpp:110-126 | A new address manager is empty and satisfies the whole invariant. |
| `AddrManModel.SwapKeeps` | src/addrman.cpp:433-455 | Swapping two places of the random order keeps every entry's own position right and changes nothing else. |
| `AddrMan.AddrManImpl.Find` | src/addrman.cpp:402-415 | Finds exactly the known addresses, and their own entry. |
| `AddrManMoves.DeletedKeeps` | src/addrman.cpp:457-472 | Deleting an unreferenced entry removes exactly it and keeps indexes, tables and counters consistent. |
| `AddrManMoves.ClearedNewKeeps` | src/addrman.cpp:474-490 | Clearing a slot of the new table empties exactly that slot, drops the occupant exactly if that was its last reference and keeps everything consistent. |
| `AddrMan.AddrManImpl.ClearNew` | src/addrman.cpp:474-490 | Does that in place. |
| `AddrManMoves.DemotedKeeps` | src/addrman.cpp:516-543 | Evicting a tried entry puts it into its own slot of the new table, displacing what was there, with all counters kept. |
| `AddrMan.AddrManImpl.StripFromNew` | src/addrman.cpp:496-510 | Walking the buckets from the source's own one and stopping early removes every reference of the entry from the new table. |
| `AddrMan.AddrManImpl.MakeTried` | src/addrman.cpp:492-549 | The whole invariant is kept: the entry leaves every slot of the new table, the tried slot is its own, an occupant moves back to the new table. |
| `AddrMan.AddrManImpl.PlaceNew` | src/addrman.cpp:601-624 | An address goes into its slot exactly if that is free, or its occupant is terrible, or the occupant has more references and the address none; otherwise an unreferenced address is forgotten. |
| `AddrMan.AddrManImpl.AddSingle` | src/addrman.cpp:551-625 | Keeps the invariant; unroutable addresses change nothing; an unknown routable one is taken exactly if its slot can be replaced. |
| `AddrMan.AddrManImpl.Add` | src/addrman.cpp:681-691 | Keeps the invariant over a whole batch and never touches the tried table. |
| `AddrMan.AddrManImpl.Good_` | src/addrman.cpp:627-679 | Keeps the invariant; unknown addresses change only the time of the last success; a known one is promoted, or noted as a collision exactly when testing is asked for and its slot is taken. |
| `AddrMan.AddrManImpl.Good` | src/addrman.cpp:1177-1184 | Whatever moved is tried afterwards. In terms of the state before: the recorded times are acceptable afterwards if and only if those of all other entries were and the time is positive, or zero for an address that is untried and whose place in the tried table is taken; an unknown address changes nothing about it. |
| `AddrMan.GoodConsequences` | src/addrman.cpp:627-679 | For every success, tested or not: the exact condition on the time in terms of the state before it, and that pending collisions stay pending. |
| `AddrMan.GoodTimed` | src/addrman.cpp:627-679 | The same as an equivalence that also covers states whose times were not acceptable: a later success at a positive time repairs the entry. |
| `AddrMan.AddrManImpl.Attempt` | src/addrman.cpp:693-711 | Changes exactly the attempt fields of a known address; its times stay acceptable exactly if the time is not negative. |
| `AddrMan.AddrManImpl.Connected` | src/addrman.cpp:868-885 | Changes exactly the time of a known address. |
| `AddrMan.AddrManImpl.SetServices` | src/addrman.cpp:887-901 | Changes exactly the services of a known address. |
| `AddrMan.AddrManImpl.ResolveOne` | src/addrman.cpp:908-956 | A pending collision is kept, dropped or resolved exactly as its verdict says; replacing makes the new address tried. |
| `AddrMan.AddrManImpl.ResolveCollisions` | src/addrman.cpp:903-964 | Resolving in any order keeps the invariant and only ever removes collisions. |
| `AddrMan.AddrManImpl.SelectTriedCollision` | src/addrman.cpp:966-992 | The address handed out is a known tried one that occupies the slot a pending address competes for; the slot it reads is never empty, and only forgotten collisions are dropped. |
| `AddrMan.AddrManImpl.GetAddr` | src/addrman.cpp:806-842 | Returns as many as allowed of the wanted addresses, all different, each exactly as known; only the random order changes. |
| `AddrManCheck.InvIffConsistent` | src/addrman.cpp:1054-1157 | The invariant with acceptable times holds if and only if the consistency check passes and what it does not look at is right as well. |
| `AddrManCheck.CheckMissesStaleAddress` | src/addrman.cpp:1054-1157 | A state the check passes although its address index is wrong. |
| `AddrManCheck.CheckMissesNetwork` | src/addrman.cpp:1145-1154 | A state the check passes although the network of its only entry has no counter. |
| `AddrManCheck.ConsistentIffTimed` | src/addrman.cpp:1054-1157 | On the invariant the check passes if and only if the recorded times are acceptable. |
| `AddrManCheck.CheckEntries` | src/addrman.cpp:1068-1099 | Returns zero exactly if all entries are in order, with the entries sorted by table and counted by network. |
| `AddrManCheck.CheckTriedTable` | src/addrman.cpp:1106-1121 | Returns zero exactly if every tried slot holds a tried entry that belongs there; what is left over tells exactly which entries have no slot. |
| `AddrManCheck.CheckNewTable` | src/addrman.cpp:1123-1136 | Together with what is left over, zero exactly if every slot is right and every reference count is the number of slots. |
| `AddrManCheck.CheckAddrman` | src/addrman.cpp:1054-1157 | Returns zero exactly on consistent states. |
| `AddrManRun.PerformChecked` | src/addrman.cpp:1159-1261 | Every public operation, with any times, keeps the invariant; the check after it passes exactly if the times are acceptable, and whether they are is decided by the operation and the state before it. |
| `AddrManRun.CheckedRun` | src/addrman.cpp:1039-1261 | Over every sequence of operations on a new manager every state satisfies the invariant, ids are never reused or re-addressed and a tried slot once filled stays filled; all consistency checks pass if and only if every operation was acceptable where it was performed, in particular with positive times. |
| `AddrManRun.FirstFailure` | src/addrman.cpp:1039-1261 | The first check that fails is the one after the first unacceptable operation. |
| `AddrManRun.ZeroTimeFails` | src/addrman.cpp:627-679 | The failing input: a new manager hears of one address, connects to it at time zero and fails its check; after a connection at a positive time it passes again. |
| `AddrManLoad.Unserialize` | src/addrman.cpp:232-400 | Any file whatever either throws or yields a manager with the whole invariant; it throws exactly on the refused headers and when the result is inconsistent. |
| `AddrManLoad.LoadedUnchecked` | src/addrman.cpp:283-399 | What the consistency check does not look at is right after loading any file. |
| `AddrManSave.EntriesReadBack` | src/addrman.cpp:212-225 | The bucket lists written for the new table read back as exactly its slots. |
| `AddrManSave.Serialize` | src/addrman.cpp:134-229 | The file holds every entry once, untried first, and the new table by index into them. |
| `AddrManRoundTrip.NewFits` | src/addrman.cpp:269-274 | The untried entries never exceed the limit that reading enforces. |
| `AddrManRoundTrip.TriedFits` | src/addrman.cpp:276-281 | The tried entries never exceed the limit that reading enforces. |
| `AddrManRoundTrip.SavedAccepted` | src/addrman.cpp:232-281 | A written file is never refused. |
| `AddrManRoundTrip.RoundTrip` | src/addrman.cpp:134-400 | Reading what was written gives the same manager under new ids: same stored entries, same tables, same reference counts; only what is kept in memory alone is reset. |
| `AddrManRoundTrip.SaveAndLoad` | src/addrman.cpp:134-400 | Writing and reading back never throws and does exactly that. |
| `CuckooFlags.FlagsSuffice` | src/cuckoocache.h:64-86 | There is a flag bit for every index if and only if the size plus 7 fits 32 bits. |
| `CuckooFlags.BitFlags.constructor` | src/cuckoocache.h:64-86 | All flags start set. |
| `CuckooFlags.BitFlags.Set` | src/cuckoocache.h:94-97 | Sets exactly the flag asked for. |
| `CuckooFlags.BitFlags.Unset` | src/cuckoocache.h:105-108 | Clears exactly the flag asked for. |
| `CuckooModel.LocationsBound` | src/cuckoocache.h:241-251 | All eight locations of an element are inside the table. |
| `CuckooModel.AgedCopies` | src/cuckoocache.h:299-312 | Aging turns recent copies into old ones and discards the old ones. |
| `CuckooModel.ConservedStep` | src/cuckoocache.h:423-445 | Exchanging the element in hand with a slot's content conserves the number of live copies of every element in each epoch. |
| `CuckooCache.Cache.constructor` | src/cuckoocache.h:337-350 | A new cache is empty with every slot free. |
| `CuckooCache.Cache.EpochCheck` | src/cuckoocache.h:287-319 | Ages exactly when the countdown has run out and the recent live elements have reached the epoch size; each epoch then stays below its size plus a sixteenth. |
| `CuckooCache.Cache.Insert` | src/cuckoocache.h:399-447 | After the epoch check, along the whole chain of evictions nothing is lost but at most the one element in hand at the end: every other live copy stays, in one of its own locations. |
| `CuckooCache.Cache.Contains` | src/cuckoocache.h:476-486 | Finds exactly what stands in one of the eight locations; never misses a live element, never reports one not inserted but the default; erasing marks one slot and removes nothing. |
| `CuckooCache.Run` | src/cuckoocache.h:399-486 | Over every run on a new cache whatever is reported as contained was inserted before or is the default element. |
| `Base58Buffers.EncodeFits` | src/base58.cpp:99-101 | 138/100 of the bytes plus one is always enough room for the digits. |
| `Base58Buffers.DecodeFits` | src/base58.cpp:54-56 | 733/1000 of the digits plus one is always enough room for the bytes. |
| `Base58Buffers.MultiplyAdd` | src/base58.cpp:64-71 | The carry loop over the used end of the buffer multiplies and adds; the assertion that no carry is left holds. |
| `Base58.EncodeBase58` | src/base58.cpp:90-128 | Gives the leading ones and the base-58 digits of the number the bytes stand for. |
| `Base58.DecodeBase58` | src/base58.cpp:41-136 | Succeeds exactly on text without NUL that is alphabet characters between spaces and within the length limit, with the value it stands for; stopping early at the limit is exact. |
| `Base58.ConvertInverse` | src/base58.cpp:41-128 | Changing the base both ways, with leading zeros kept, is the identity for any two bases. |
| `Base58.DecodeEncode` | src/base58.cpp:41-128 | Decoding what was encoded gives the bytes back. |
| `Base58.EncodeDecode` | src/base58.cpp:41-128 | Encoding what was decoded gives the text back without surrounding spaces: only one spelling is accepted. |
| `Base58.EncodeBase58Check` | src/base58.cpp:138-145 | The bytes and their four checksum bytes, encoded. |
| `Base58.DecodeBase58Check` | src/base58.cpp:147-170 | Succeeds exactly if the last four bytes are the checksum of the others. |
| `Base58.DecodeEncodeCheck` | src/base58.cpp:138-170 | Decoding what was encoded with a checksum gives the bytes back. |
| `Base58.EncodeDecodeCheck` | src/base58.cpp:138-170 | Encoding what was decoded with a checksum gives the text back without surrounding spaces. |
| `Bech32Checksum.FoldXor` | src/bech32.cpp:132-218 | The checksum register is linear over GF(2) in state and data. |
| `Bech32Checksum.FoldGroups` | src/bech32.cpp:343-354 | Six values run from zero leave exactly the register that is made of them. |
| `Bech32Checksum.StepInjective` | src/bech32.cpp:132-218 | One step of the register is injective. |
| `Bech32Checksum.ChecksumUnique` | src/bech32.cpp:329-354 | Exactly one choice of the last six values gives the wanted remainder: the one computed. |
| `Bech32Checksum.BurstDetected` | src/bech32.cpp:132-218 | Any change within six consecutive values changes the remainder, wherever it is and however long the data. |
| `Bech32Checksum.SingleChangeDetected` | src/bech32.cpp:132-218 | Any change of one value changes the remainder. |
| `Bech32Field.TimesE` | src/bech32.cpp:84-111 | The ten-bit table multiplies by e as the source does: (v1 e + v0) e = (9 v1 + v0) e + 23 v1. |
| `Bech32Field.Order` | src/bech32.cpp:39-42 | e is primitive: a power of it fixes a nonzero element if and only if the exponent is a multiple of 1023. |
| `Bech32Field.ThreePowers` | src/bech32.cpp:270-275 | e^997, e^998 and e^999 as elements of the field, which is what the comment's example constant should hold. |
| `Bech32Bch.Roots` | src/bech32.cpp:160-178 | The powers e^997, e^998 and e^999 are roots of the generator whose multiples the loop adds. |
| `Bech32Bch.ValueStep` | src/bech32.cpp:180-214 | At a root of the generator one step of the loop appends a coefficient to the value of the polynomial. |
| `Bech32Bch.ValueFold` | src/bech32.cpp:180-218 | The remainder has the value of the whole polynomial at these roots. |
| `Bech32Bch.NoCancelling` | src/bech32.cpp:174-178 | Three terms at consecutive powers of distinct positions cannot cancel. |
| `Bech32Bch.FewErrorsDetected` | src/bech32.cpp:139-145 | Any change of up to three values within 1023 changes the remainder, as the comments promise. |
| `Bech32.ComputePolyMod` | src/bech32.cpp:132-218 | The loop computes the remainder the lemmas are about. |
| `Bech32.CheckCharacters` | src/bech32.cpp:289-311 | Reports no error exactly on printable text of one case. |
| `Bech32.VerifyChecksum` | src/bech32.cpp:329-340 | Tells which encoding, if any, the checksum belongs to. |
| `Bech32.CreateChecksum` | src/bech32.cpp:343-354 | Gives the checksum of which ChecksumIff speaks. |
| `Bech32.ChecksumIff` | src/bech32.cpp:329-354 | The checksum verifies as an encoding if and only if it is the one created for it. |
| `Bech32.ErrorDetected` | src/bech32.cpp:329-340 | Text that verified no longer verifies as the same encoding after any change within six consecutive values. |
| `Bech32.FewErrorsRejected` | src/bech32.cpp:329-340 | Nor after any change of up to three values. |
| `Bech32.AcceptedDiffer` | src/bech32.cpp:375-399 | Two accepted texts of the same length, prefix and encoding are equal but for case or differ in at least four values. |
| `Bech32.Encode` | src/bech32.cpp:359-372 | The lower-case prefix, the separator and the spelled values with their checksum. |
| `Bech32.Decode` | src/bech32.cpp:375-399 | Accepts exactly text of one case with a separator in range, alphabet characters after it and a valid checksum. |
| `Bech32.DecodeEncode` | src/bech32.cpp:359-399 | Decoding what was encoded gives encoding, prefix and values back. |
| `Bech32.EncodeDecode` | src/bech32.cpp:359-399 | Encoding what was decoded gives the text back in lower case. |
| `CompactIndexes.SerIndexes` | src/blockencodings.h:31-37 | Writing differences throws exactly if the indexes do not increase. |
| `CompactIndexes.UnserIndexes` | src/blockencodings.h:38-45 | Reading throws exactly if some index exceeds 16 bits, 64-bit wrap-around included, and gives the indexes otherwise. |
| `CompactIndexes.RestoredInjective` | src/blockencodings.h:38-45 | Different differences never read as the same indexes. |
| `CompactIndexes.IndexesRoundTrip` | src/blockencodings.h:26-46 | Increasing indexes come back as they were, all others are refused. |
| `CompactLayout.OnePlaceEach` | src/blockencodings.cpp:68-86 | Once the prefilled transactions are placed there is exactly one open place for every short id. |
| `CompactLayout.PlacesFit` | src/blockencodings.cpp:92-97 | The 16-bit places the short ids are mapped to are their open places if and only if the block has at most 65536 transactions, although the size limit admits 800000. |
| `CompactLayout.OwnLayout` | src/blockencodings.cpp:22-38 | In the layout of a block's own announcement the prefilled transactions come first and the k-th short id stands for the k-th other transaction. |
| `CompactBlocks.SkipTaken` | src/blockencodings.cpp:95-96 | The running 16-bit offset always finds the next open place and never wraps. |
| `CompactBlocks.PartiallyDownloadedBlock.PlacePrefilled` | src/blockencodings.cpp:68-86 | Succeeds exactly if every prefilled transaction is there and none is placed beyond what is accounted for; no two share a place. |
| `CompactBlocks.PartiallyDownloadedBlock.MapShortIds` | src/blockencodings.cpp:92-114 | Succeeds exactly if all short ids differ and no bucket was crowded; every short id is then mapped to its place in 16 bits. |
| `CompactBlocks.PartiallyDownloadedBlock.MatchPool` | src/blockencodings.cpp:116-143 | Prefilled places are untouched and the counter is exact. Every open place holds its only match among the transactions scanned and is empty after none or several; the scan ends early only if every short id has found its transaction. |
| `CompactBlocks.PartiallyDownloadedBlock.MatchExtra` | src/blockencodings.cpp:145-174 | Every open place ends up with its first match, unless the pool had a second one or an extra match is a different transaction; the extra counter is the change of the other one modulo 2^64, also when that is negative. |
| `CompactBlocks.PartiallyDownloadedBlock.InitData` | src/blockencodings.cpp:58-179 | INVALID exactly on null, empty, oversized or ill-placed announcements and used objects, FAILED exactly on equal short ids or a crowded bucket; OK says what every place holds. |
| `CompactBlocks.PartiallyDownloadedBlock.FillBlock` | src/blockencodings.cpp:189-235 | Puts the missing transactions into the gaps in order, works once, and with too few of them leaves the transactions before the first unfilled gap moved out. |
| `CompactBlocks.AvailableIsRight` | src/blockencodings.cpp:58-179 | If no transaction at hand collides with a short id of the block, everything available is the block's transaction at that place. |
| `CompactBlocks.MergedIsBlock` | src/blockencodings.cpp:198-206 | Right transactions and the missing ones in order give the block's list. |
| `CompactBlocks.Relay` | src/blockencodings.cpp:22-235 | Announce, lay out, request, fill: when the layout succeeds is exact, the rebuilt transaction list is then the block's, and the result is OK exactly if the block is valid. |

## Left out

- Coins: script memory is counted by length, not by allocated capacity.
- Coins: the best-block hash, reallocation of the map, and writes to the base that fail.
- Coins: AddCoins, AccessByTxid and EmplaceCoinInternalDANGER, which only call or bypass AddCoin.
- CoinsCache.CoinsDB.BatchWrite: requires the batch to be disciplined, which every cache above the database is shown to be; partial batches and crash recovery are not modelled.
- Check queue: stop requests, starting and joining threads, and the 32-bit width of the counters.
- Check queue: scheduling is any interleaving; that an enabled step is eventually taken is not assumed, so completion is stated as a bound on the steps.
- Header sync: the difficulty rule and the work of a header are parameters; the salted hash of a header is a parameter; memory use in bytes.
- Block index: the float estimate of equivalent time, and validity status bits.
- Block index: heights are unbounded, apart from the exact bound on the locator's step.
- 256-bit arithmetic: conversion to double and to hexadecimal text, and the bitwise operators other than complement.
- Address manager: Select_, GetChance, GetEntries_, FindAddressEntry_ and Size_, which only read.
- Address manager: the byte format of the file; a file is the sequence of its fields, and reading past the end is not modelled.
- Address manager: bucket hashes and the AS map are parameters; the width of the counters.
- AddrMan.AddrManImpl.ResolveCollisions: the clock it reads is positive.
- CuckooCache.Cache.constructor: the depth limit, a float logarithm in the source, is any number of at least 1, and the size plus 7 must fit 32 bits.
- CuckooCache.Run: memory ordering of concurrent contains calls is not modelled; operations are sequential.
- Cuckoo cache: setup_bytes.
- Base58.DecodeEncodeCheck: the bytes with their checksum are at most 2^31 - 1 long, where the length limit of the decoder saturates.
- Base58: the checksum hash is a parameter that yields bytes; the character table is given by ranges.
- Bech32: locating errors and its syndrome constants; that up to four errors within 89 characters are always found, which unlike the result for three rests on a search over the code.
- CompactBlocks.PartiallyDownloadedBlock.InitData: taken on announcements that passed the 16-bit read guard and on an object whose counters are zero; when a bucket of the map is crowded is a parameter.
- CompactBlocks.PartiallyDownloadedBlock.MapShortIds: with 65536 prefilled transactions before an open place the 16-bit offset would wrap; the read guard excludes it.
- CompactBlocks.PartiallyDownloadedBlock.FillBlock: the block check is two flags, valid and mutated.
- CompactBlocks.Relay: the block has at most 65535 transactions, which the read guard demands; that short ids rarely collide is a hypothesis.
- Block filters, key and address formats above Base58 and Bech32, script compression, ban lists, wallet, validation, staking, networking and RPC.
