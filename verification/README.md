# A verified model of UCX memory hooks and their allocator

UCM, the memory-event layer of UCX, intercepts memory calls of a process. This project models its hard parts in Dafny
and proves what they are for:

- **The heap** (`src/ucm/ptmalloc286/malloc.c`): dlmalloc 2.8.6 for 64-bit words without footers, with 16-byte
  alignment. Memory is a map of words; the bins, tries, rings and tags are pointers and bits in that memory, written by
  methods that follow the source branch by branch. The invariant says that chunks tile each segment, neighbouring free
  chunks are merged, every tag agrees with the chunk before it, and every free chunk is exactly one of top, dv and one
  bin entry. It is proved for every operation and then for every run of a program. `Rooms` tells what each call does
  without bins and memory: which free chunk serves, where the rest goes, what is asked of the system and given back.
- **The code relocator** (`src/ucm/bistro`): the x86-64 and AArch64 translators, against small instruction-set models
  written from the Intel SDM, volume 2A, and from section C6.2 of the Arm Architecture Reference Manual (DDI 0487).
- **The event layer** (`src/ucm/event/event.c`): the handler list, and the announcements around real calls as a state
  machine over all interleavings of threads.
- **The VFS daemon** (`src/tools/vfs/vfs_server.c`): the poll loop with its table compacted in place.
- **Profile scopes** (`src/tools/profile/read_profile.c`): bracket matching on unbalanced traces.

Modules build on each other in this order:

| part | modules |
|---|---|
| words, bits, memory | `Words`, `BinIndex`, `BitMaps`, `Memory` |
| bins | `Tries`, `Rings`, `TrieLinks`, `TrieOps`, `BestFit`, `TrieSearch`, `SmallBins`, `BinStore`, `Bins` |
| layout | `Layout`, `Tags`, `HeapBase`, `HeapSteps`, `Growth`, `Canonical`, `Segments`, `SegmentSteps`, `Mappings` |
| heap operations | `BulkFacts`, `HeapFacts`, `SegmentFacts`, `ReleaseFacts`, `SystemFacts`, `CallerFacts`, `ResizeFacts`, `ProgramFacts`, `Rooms`, `Heaps` |
| programs | `Reallocation`, `Sessions` |
| x86-64 | `Bytes`, `BistroStatus`, `X86Isa`, `X86Relocator`, `X86Meaning`, `X86Patch`, `X86Hazards`, `X86Patcher` |
| AArch64 | `BitFields`, `AArch64Isa`, `AArch64Relocator`, `AArch64Meaning` |
| others | `EventHandlers`, `MappingTracker`, `VfsRounds`, `VfsFates`, `VfsServer`, `ScopeMatching` |

`dafny verify dfyconfig.toml` checks everything.

## Model

| member | source | states |
|---|---|---|
| `Sessions.Run` | src/ucm/ptmalloc286/malloc.c:4551-5350 | over every sequence of malloc, memalign, free, bulk free, in-place and moving realloc, trim and stores, with any answers of the system, from the heap it starts with to the one it ends with: the heap invariant holds; each call is made in the room the one before it left and has exactly the outcome that this room and the system allow, null if and only if there is no room, aligned where asked; which free chunk serves, what becomes of the victim, of top, of segments and mappings, and when memory is given back, is told for every call; and memory holds every value last written to a chunk that is still in hand |
| `Sessions.Step` | src/ucm/ptmalloc286/malloc.c:4551-5350 | one call of any kind keeps the heap invariant, has the outcome, alignment and null result that the room demands, leaves victim, top, segments, mappings and trim counters as that call must, and leaves every other word in hand alone |
| `Sessions.RoomPinned` | src/ucm/ptmalloc286/malloc.c:3258-3289 | what is free, and where top is, is determined by the segments, the mappings and the chunks in hand |
| `Sessions.StaysWritten` | src/ucm/ptmalloc286/malloc.c:4551-5350 | a written value stays known until its word is overwritten, its chunk released or the chunk cut below the word, whatever other calls happen |
| `Reallocation.PayloadsApart` | src/ucm/ptmalloc286/malloc.c:4551-4796 | in every reachable heap no payload word belongs to two live chunks |
| `Reallocation.DeniedIs` | src/ucm/ptmalloc286/malloc.c:4582-4677 | no bin, victim or top can serve a request exactly when the layout has no free chunk of that size and no larger top |
| `Heaps.Heap.Malloc` | src/ucm/ptmalloc286/malloc.c:4551-4685 | null exactly when the request is too large, or no free chunk fits and the system grants nothing, and then nothing changes; otherwise exactly one new chunk, 16-aligned, of size in [nb, nb + 32) unless directly mapped, apart from all live chunks, whose payloads are untouched; it is served from the heap if anything there fits, as `FromHeap` says, else by a mapping of its own, else by the break, else by a new segment |
| `Heaps.Heap.FromHeap` | src/ucm/ptmalloc286/malloc.c:4582-4675 | fails exactly when every binned chunk and dv are below nb and top does not exceed nb, and then changes nothing; otherwise dv serves if it fits and no binned chunk has the size of a small request or fits a large one better, else a binned chunk of least size that fits, and top only if nothing else does; the victim afterwards is what is left of dv or of the binned chunk that a small request was cut from |
| `Rooms.ServesMeans` | src/ucm/ptmalloc286/malloc.c:4551-4573 | what that choice means for the free chunks of the layout: top serves only if no free chunk fits; dv only if no other free chunk has the size of a small request or fits a large one better; otherwise the chunk is of least size among those that fit, and a small request with a free chunk of its size gets one of that size |
| `Rooms.BinnedIs` | src/ucm/ptmalloc286/malloc.c:3268-3289 | the binned chunks are exactly the free chunks of the layout but for dv |
| `Heaps.Heap.TakeWhole` | src/ucm/ptmalloc286/malloc.c:4589-4599 | an exact fit is handed out whole, the one that came last into its bin |
| `Heaps.Heap.MallocSmall` | src/ucm/ptmalloc286/malloc.c:4582-4633 | serves a binned chunk of exactly the size if there is one, the newest of them; else, if dv does not fit, the least binned chunk that fits, whose rest becomes dv; fails only if no binned chunk has the size and dv fits or nothing binned does |
| `Heaps.Heap.MallocFromDv` | src/ucm/ptmalloc286/malloc.c:4645-4663 | serves at the start of dv; what is left is dv, or there is none |
| `Heaps.Heap.MallocFromTop` | src/ucm/ptmalloc286/malloc.c:4665-4675 | serves exactly nb bytes at the start of top and keeps top up to the end of its segment |
| `Heaps.Heap.TmallocLarge` | src/ucm/ptmalloc286/malloc.c:4441-4509 | serves a chunk of least size among all binned chunks that fit and better than dv; null only if every tree chunk is too small or dv fits at least as well |
| `Heaps.Heap.TmallocSmall` | src/ucm/ptmalloc286/malloc.c:4512-4547 | serves from the least chunk of all tree bins; the rest replaces dv and the heap stays valid |
| `Heaps.Heap.Free` | src/ucm/ptmalloc286/malloc.c:4689-4796 | releases exactly the given chunk; a mapping goes without any other change; a chunk of a segment leaves the room that `FreeChunk` says; null is ignored; every other payload is kept |
| `Heaps.Heap.FreeChunk` | src/ucm/ptmalloc286/malloc.c:4709-4785 | the chunk is disposed of as `DisposeChunk` says; if it went into a top that exceeds the trim limit, top is trimmed and idle segments go; if it went into a large bin and the countdown ends, idle segments go; otherwise segments stay |
| `Heaps.Heap.DisposeChunk` | src/ucm/ptmalloc286/malloc.c:4370-4436 | the layout becomes the one in which the chunk and the free space on both sides are one free chunk, or part of top; that chunk is dv exactly if it took in dv, dv is given up exactly if top took it in, and otherwise it is binned; all tags, bins and other payloads agree |
| `Heaps.Heap.TryReallocChunk` | src/ucm/ptmalloc286/malloc.c:4818-4895 | succeeds exactly when the chunk is large enough or can grow into the space after it, keeps the address, gives a size in [nb, nb + 32), keeps the common payload and every other chunk, and leaves dv and top as they must be; a refusal changes nothing |
| `Heaps.Heap.GrowChunk` | src/ucm/ptmalloc286/malloc.c:4838-4889 | growing into top, dv or a free neighbour, or refusing: succeeds if and only if that space suffices |
| `Reallocation.Realloc` | src/ucm/ptmalloc286/malloc.c:5192-5235 | null exactly when the request is too large, or the chunk cannot be resized in place and neither heap nor system has room; keeps the address exactly when it can; the words that old and new chunk have in common arrive, and nothing else changes hands |
| `Reallocation.CopyWords` | src/ucm/ptmalloc286/malloc.c:5226-5228 | copying between two live chunks transfers each word and touches no third chunk |
| `Heaps.Heap.Memalign` | src/ucm/ptmalloc286/malloc.c:4897-4969 | for every alignment up to 2^63: null exactly when the padded request overflows or cannot be served; otherwise the padded request is served as malloc would, moved up to the first spot that is aligned to the least power of two that will do, and what is spare at both ends is disposed of |
| `Heaps.Heap.RoundAlignment` | src/ucm/ptmalloc286/malloc.c:4899-4905 | the loop ends at the least power of two that is at least the wanted alignment and the minimum chunk |
| `Heaps.Heap.AlignWithin` | src/ucm/ptmalloc286/malloc.c:4919-4947 | the leader is at least a minimum chunk; leader and aligned chunk together are exactly the original one, and at least nb is left |
| `Heaps.Heap.TrimTail` | src/ucm/ptmalloc286/malloc.c:4949-4959 | at least nb stays, and at most a minimum chunk more unless directly mapped |
| `ResizeFacts.MemalignRoom` | src/ucm/ptmalloc286/malloc.c:4912-4914 | what memalign asks of malloc always leaves room for a leader and the aligned chunk |
| `Heaps.Heap.BulkDispose` | src/ucm/ptmalloc286/malloc.c:5104-5144 | for any array of distinct live pointers and nulls: the resulting layout is the one of freeing the pointers one by one, the array is cleared, and all other chunks keep their payloads |
| `Heaps.Heap.BulkJoin` | src/ucm/ptmalloc286/malloc.c:5123-5129 | two adjacent live chunks become one and the heap stays valid |
| `Heaps.Heap.BulkFree` | src/ucm/ptmalloc286/malloc.c:5104-5144 | exactly the named chunks are gone, dv is the free chunk that holds the old one, and if top then exceeds the trim limit it is trimmed and idle segments go |
| `Canonical.UseDetermines` | src/ucm/ptmalloc286/malloc.c:3268-3289 | two fully merged layouts of the same segments with the same chunks in use are equal: the free chunks are determined by the used ones |
| `Canonical.SameAsOneByOne` | src/ucm/ptmalloc286/malloc.c:5104-5144 | however chunks came to be freed, the merged result equals freeing them one by one |
| `BulkFacts.BulkEnd` | src/ucm/ptmalloc286/malloc.c:5104-5144 | when the pass over the array is over, the live chunks are those it did not name and the layout is that of single frees |
| `Heaps.Heap.Store` | src/ucm/ptmalloc286/malloc.c:3292-3303 | a store to the payload of a live chunk keeps the whole heap invariant: no tag, link or record lies in a live payload |
| `Layout.ReleaseFuses` | src/ucm/ptmalloc286/malloc.c:4370-4436 | releasing turns the space from the free predecessor to the next chunk in use into a single chunk and leaves the tiling of the segment intact |
| `Tags.FreeFollowsUse` | src/ucm/ptmalloc286/malloc.c:3268-3289 | the chunk before free or top space is always in use |
| `Tags.NextTag` | src/ucm/ptmalloc286/malloc.c:3258-3289 | the chunk after a live, free or top chunk exists, and its previous-in-use bit says whether that chunk is live |
| `Tags.ReleaseTags` | src/ucm/ptmalloc286/malloc.c:4370-4436 | the tag writes of a release leave every head word and every foot in agreement with the new layout |
| `HeapSteps.ReleaseFinish` | src/ucm/ptmalloc286/malloc.c:4370-4436 | a release keeps the heap invariant, the bins and all other payloads |
| `HeapSteps.CarveFinish` | src/ucm/ptmalloc286/malloc.c:4616-4675 | carving a request out of free space keeps the invariant, the bins and all payloads, and adds exactly that chunk |
| `HeapSteps.CutHeap` | src/ucm/ptmalloc286/malloc.c:4828-4837 | splitting a live chunk in two keeps the invariant and the payload of the first part |
| `Growth.GrowHeap` | src/ucm/ptmalloc286/malloc.c:4838-4889 | moving the boundary between a live chunk and the space after it keeps the invariant, the bins and the old payload |
| `CallerFacts.LiveFacts` | src/ucm/ptmalloc286/malloc.c:4709-4716 | the address, in-use and next-chunk tests of free hold for every live pointer, so its usage-error branch is not reachable |
| `HeapFacts.DisposeFacts` | src/ucm/ptmalloc286/malloc.c:4370-4436 | the address test on the previous chunk always passes and the tags name exactly the chunks to merge, so the corruption branch is not reachable |
| `Heaps.Heap.MoveTopEnd` | src/ucm/ptmalloc286/malloc.c:4209-4215 | moving the end of the current segment moves the end of top with it and keeps the invariant and all payloads |
| `Heaps.Heap.FirstSegment` | src/ucm/ptmalloc286/malloc.c:4182-4201 | the first segment is all top, which ends TOP_FOOT_SIZE before its end |
| `Heaps.Heap.WriteFences` | src/ucm/ptmalloc286/malloc.c:4015-4026 | the fenceposts fill the space up to the end of the segment, at least two of them, every one with the fencepost value, and nothing else is written |
| `Heaps.Heap.AddSegment` | src/ucm/ptmalloc286/malloc.c:3987-4038 | the old segment is closed by a record and fences, what is left of the old top is binned, the new segment is all top up to TOP_FOOT_SIZE, dv stays; no live chunk changes |
| `Heaps.Heap.PrependAlloc` | src/ucm/ptmalloc286/malloc.c:3945-3983 | space before a segment: exactly one chunk of nb is handed out at its start, the rest merges with the old first chunk, and with dv if that is it; all payloads are kept |
| `Heaps.Heap.SysAlloc` | src/ucm/ptmalloc286/malloc.c:4043-4249 | null exactly when the system grants nothing usable or the rounding wraps, and then nothing changes; otherwise a large request gets a mapping of its own if one is granted, else the request is served from an extension of the asked size at the break, else from a mapping of the asked size |
| `Heaps.Heap.Serve` | src/ucm/ptmalloc286/malloc.c:4177-4245 | whatever usable space the system granted, it is the first segment, extends the current one, extends one that starts where it ends, or becomes the current one, in this order, and the pending request is always served from it |
| `Heaps.Heap.Obtain` | src/ucm/ptmalloc286/malloc.c:4089-4177 | takes an extension at the break if that is granted, else a mapping; fails exactly when neither gives usable space |
| `Heaps.Heap.Morecore` | src/ucm/ptmalloc286/malloc.c:4089-4148 | a granted extension is vacant, aligned and large enough for the request; contiguity is given up exactly on failure |
| `Heaps.Heap.MmapAlloc` | src/ucm/ptmalloc286/malloc.c:3831-3860 | null exactly when no usable mapping is granted; otherwise a new aligned chunk of at least nb outside all segments, in a mapping of the rounded size at the address that was offered |
| `Heaps.Heap.SegmentEndingAt` | src/ucm/ptmalloc286/malloc.c:4205-4208 | finds a segment that ends at the address, or there is none |
| `Heaps.Heap.SegmentStartingAt` | src/ucm/ptmalloc286/malloc.c:4219-4221 | finds a segment that starts at the address, or there is none |
| `SystemFacts.RoundUpFits` | src/ucm/ptmalloc286/malloc.c:4058-4060 | if rounding up gives more than the request, nothing wrapped around and the padded request is covered |
| `SystemFacts.FirstExtension` | src/ucm/ptmalloc286/malloc.c:4095-4111 | the first extension ends aligned and covers the padded request from any break |
| `SystemFacts.NextExtension` | src/ucm/ptmalloc286/malloc.c:4112-4121 | a contiguous extension covers what top lacks and keeps the alignment |
| `Heaps.Heap.ReleaseSegment` | src/ucm/ptmalloc286/malloc.c:4259-4289 | a segment is given back exactly when it is mapped, holds no chunk in use and the system agrees; a dv that fills an idle mapped segment is dv no more, also when the system refuses; otherwise everything is as before |
| `Heaps.Heap.ReleaseUnusedSegments` | src/ucm/ptmalloc286/malloc.c:4254-4299 | the segments that stay are exactly those not given back, the current one among them; dv is given up exactly if it filled an idle mapped one; the countdown starts anew; no live chunk changes |
| `SegmentSteps.OnlyFree` | src/ucm/ptmalloc286/malloc.c:4265-4270 | a closed segment whose first chunk is free and reaches its trailer holds no live chunk |
| `Heaps.Heap.TrimTop` | src/ucm/ptmalloc286/malloc.c:4307-4353 | gives back whole units: the amount that leaves between pad + 1 and pad + unit bytes, or from the break at most half the address space, if the system agrees, and else nothing |
| `Heaps.Heap.SysTrim` | src/ucm/ptmalloc286/malloc.c:4301-4365 | keeps the invariant and all live chunks; top and segments are as `MallocTrim` says, and automatic trimming is turned off exactly if nothing could be given back though top exceeds the limit |
| `ReleaseFacts.TrimLeavesPad` | src/ucm/ptmalloc286/malloc.c:4309-4311 | the trimmed amount is whole units and leaves between pad + 1 and pad + unit bytes |
| `ReleaseFacts.NeverPinned` | src/ucm/ptmalloc286/malloc.c:2717-2726 | in every valid heap the current segment holds no record of another one, so the test never keeps it from shrinking |
| `Heaps.Heap.MallocTrim` | src/ucm/ptmalloc286/malloc.c:5342-5350 | touches no live chunk; if the system lets top shrink, at most one unit above the padding is left, and true is returned whenever there was more; a segment other than the current one is gone exactly if it was mapped and idle and the system took it back; true is returned exactly when a segment shrank or went |
| `Rooms.TrimBounds` | src/ucm/ptmalloc286/malloc.c:4301-4365 | after any trim more than the padding is left in top, and at most one unit more if the system lets it shrink |
| `Rooms.SweptOut` | src/ucm/ptmalloc286/malloc.c:4254-4299 | after any trim a segment other than the current one is gone exactly if it was mapped and idle before and the system took it back |
| `Bins.BinTable.InitBins` | src/ucm/ptmalloc286/malloc.c:3916-3923 | every header points to itself and the empty bins are well formed |
| `Bins.BinTable.InsertSmallChunk` | src/ucm/ptmalloc286/malloc.c:3575-3591 | puts exactly this chunk at the front of the list of its size and keeps all bins well formed, also over a stale header |
| `Bins.BinTable.UnlinkSmallChunk` | src/ucm/ptmalloc286/malloc.c:3594-3617 | takes out exactly this chunk, keeps the order of the others and all bins well formed; no corruption branch is reachable |
| `Bins.BinTable.UnlinkFirstSmallChunk` | src/ucm/ptmalloc286/malloc.c:3620-3635 | takes out the first chunk of the list, which is of exactly the bin size, and leaves the others in order |
| `SmallBins.InsertOne` | src/ucm/ptmalloc286/malloc.c:3575-3591 | the list stays circular with the chunk in front and its bit set |
| `SmallBins.DeleteOne` | src/ucm/ptmalloc286/malloc.c:3594-3617 | the list stays circular without the chunk; when it was the last, only the bit is cleared and the header left stale |
| `Bins.BinTable.InsertLargeChunk` | src/ucm/ptmalloc286/malloc.c:3653-3702 | adds exactly this chunk; every trie, ring and bit stays well formed and only bin links are written |
| `Bins.BinTable.UnlinkLargeChunk` | src/ucm/ptmalloc286/malloc.c:3721-3790 | takes out exactly this chunk; every trie, ring and bit stays well formed and only bin links are written |
| `Bins.BinTable.TakeOut` | src/ucm/ptmalloc286/malloc.c:3724-3750 | the ring or the replacing leaf is detached as the abstract removal says |
| `Bins.BinTable.InsertChunk` | src/ucm/ptmalloc286/malloc.c:3794-3796 | the same for any size |
| `Bins.BinTable.UnlinkChunk` | src/ucm/ptmalloc286/malloc.c:3798-3800 | the same for any size |
| `Bins.BinTable.FindBestFit` | src/ucm/ptmalloc286/malloc.c:4441-4487 | finds a chunk of least size among the tree-binned chunks that fit, or none fits |
| `Bins.BinTable.FindLeast` | src/ucm/ptmalloc286/malloc.c:4516-4527 | finds the least of all tree-binned chunks |
| `TrieSearch.FindPlace` | src/ucm/ptmalloc286/malloc.c:3668-3700 | the descent ends at the node of the size or at the hole for it |
| `TrieSearch.FindLeaf` | src/ucm/ptmalloc286/malloc.c:3737-3743 | the descent ends at the rightmost leaf below the node |
| `TrieSearch.DescendForSize` | src/ucm/ptmalloc286/malloc.c:4447-4469 | the walk remembers a best candidate and a subtree that together bound every fit of the bin |
| `TrieSearch.LeftmostFit` | src/ucm/ptmalloc286/malloc.c:4480-4487 | walking leftmost children leaves a candidate that no fit of the bin beats |
| `BestFit.DescentEnds` | src/ucm/ptmalloc286/malloc.c:4459-4466 | when the walk runs out of nodes, the deepest untaken right subtree bounds what is left |
| `BestFit.WrappedCompare` | src/ucm/ptmalloc286/malloc.c:4453-4458 | comparing wrapped unsigned differences means: it fits and is smaller than the candidate |
| `Tries.HeightBound` | src/ucm/ptmalloc286/malloc.c:3668-3674 | a descent visits at most one node for each size bit left, and one more |
| `Tries.InsertAddsOne` | src/ucm/ptmalloc286/malloc.c:3653-3702 | insertion adds one chunk and keeps prefix order, one node for each size and rings of equal sizes |
| `Tries.RemoveTakesOne` | src/ucm/ptmalloc286/malloc.c:3721-3790 | removal takes one chunk and keeps prefix order, one node for each size and rings of equal sizes |
| `Tries.LastLeafReplaces` | src/ucm/ptmalloc286/malloc.c:3735-3749 | the rightmost leaf may stand in for an inner node |
| `TrieOps.InsertAtHole` | src/ucm/ptmalloc286/malloc.c:3675-3680 | the pointer writes for a new size represent the abstract insertion |
| `TrieOps.InsertAtNode` | src/ucm/ptmalloc286/malloc.c:3686-3694 | the pointer writes for a known size represent the abstract insertion |
| `TrieOps.UnlinkBehind` | src/ucm/ptmalloc286/malloc.c:3724-3730 | the pointer writes for a chunk behind its node represent the abstract removal |
| `TrieOps.PromoteInner` | src/ucm/ptmalloc286/malloc.c:3751-3788 | the pointer writes that put a replacement in the place of a node represent the abstract removal |
| `BinIndex.TreeIndexInRange` | src/ucm/ptmalloc286/malloc.c:2886-2902 | every large size lies in the range of the bin the shifts and masks assign to it |
| `BinIndex.HighBit16IsLog` | src/ucm/ptmalloc286/malloc.c:2894-2899 | the halving steps compute the binary logarithm of every 16-bit value |
| `BinIndex.BorrowMask` | src/ucm/ptmalloc286/malloc.c:2895-2898 | the masked borrow of the unsigned subtraction is the step exactly below the bound |
| `BinIndex.BinSpan` | src/ucm/ptmalloc286/malloc.c:2915-2917 | each bin ends where the next begins and spans a power of two |
| `BinIndex.BinsOrdered` | src/ucm/ptmalloc286/malloc.c:2886-2917 | every size of a lower bin is below every size of a higher one |
| `BinIndex.KeyOfSize` | src/ucm/ptmalloc286/malloc.c:2910-2912 | the shifted size is the offset in the bin, scaled to 64 bits |
| `BinIndex.KeyStep` | src/ucm/ptmalloc286/malloc.c:3671-3672 | the top bit of the key says which half holds the size, and shifting gives the key inside that half |
| `BitMaps.MarkEffect` | src/ucm/ptmalloc286/malloc.c:2923-2932 | marking and clearing a bin change its bit and no other |
| `BitMaps.Bit2IdxIs` | src/ucm/ptmalloc286/malloc.c:2973-2983 | the halving steps give the index of every single bit |
| `BitMaps.LeastBitScans` | src/ucm/ptmalloc286/malloc.c:2935-2983 | least bit and index find the same bin as a linear scan |
| `BitMaps.LeftBitsScan` | src/ucm/ptmalloc286/malloc.c:2938-2983 | the mask of higher bits finds the first marked bin above an index, or there is none |
| `BitMaps.ShiftedScan` | src/ucm/ptmalloc286/malloc.c:4587-4610 | the shifted map of the small request finds the first marked bin at or above the index, or there is none |
| `BitMaps.LowPair` | src/ucm/ptmalloc286/malloc.c:4589-4592 | the two-bit test and the choice of the exact or next bin |
| `BitMaps.OnlyPowerOfTwo` | src/ucm/ptmalloc286/malloc.c:4901-4901 | the power-of-two test accepts powers of two only |
| `X86Relocator.Relocation.RelocateOne` | src/ucm/bistro/bistro_x86_64.c:124-253 | by the bytes at the cursor: refuses exactly where none of the recognised encodings starts, consumes the length of that encoding, reports a small buffer exactly when the translation does not fit, and otherwise emits the translation and lowers the end to the lowest branch target |
| `X86Relocator.KnownBytes` | src/ucm/bistro/bistro_x86_64.c:124-253 | the accepted instructions are exactly those of nine byte patterns, with the length of each; all are copied but for the compare and the short jumps, whose operand and target count from the end of the instruction |
| `X86Relocator.Relocation.RelocateCode` | src/ucm/bistro/bistro.c:174-212 | succeeds exactly when the shortest covering run of whole instructions is recognised, every branch in it goes past its end and the translation fits |
| `X86Relocator.LowestIs` | src/ucm/bistro/bistro_x86_64.c:234-235 | the running minimum bounds the prefix exactly when every branch target lies past it |
| `X86Meaning.CopyDecodes` | src/ucm/bistro/bistro_x86_64.c:154-192 | a copied instruction decodes to itself at any address |
| `X86Meaning.CompareExec` | src/ucm/bistro/bistro_x86_64.c:193-214 | the four instructions for a rip-relative compare have its effect, restore rax, and differ only in the eight bytes below the stack pointer |
| `X86Meaning.BranchExec` | src/ucm/bistro/bistro_x86_64.c:215-236 | the three jumps for a short branch arrive where the branch does, for every condition and flags |
| `X86Meaning.PrefixSimulated` | src/ucm/bistro/bistro_x86_64.c:124-253 | from any state, the translation of a prefix follows the original instruction by instruction until it leaves the prefix |
| `X86Patch.OriginalPreserved` | src/ucm/bistro/bistro_x86_64.c:255-297 | for every movable prefix and state: the trampoline ends at the address, registers, flags and memory the original prefix ends with, but for the scratch bytes, as long as no load reads them |
| `X86Patch.PrefixLeft` | src/ucm/bistro/bistro_x86_64.c:255-297 | the original leaves a movable prefix within one step for each byte |
| `X86Patch.DirtyIsScratch` | src/ucm/bistro/bistro_x86_64.c:193-214 | every byte that may differ lay right below the stack pointer at a compare that ran |
| `X86Patch.PatchReaches` | src/ucm/bistro/bistro_x86_64.c:299-344 | a patched function arrives at the hook with nothing but rax changed, and rax only for a far hook |
| `X86Hazards.UnreadIsClean` | src/ucm/bistro/bistro_x86_64.c:193-214 | a condition read off the prefix and the stack pointer excludes loads from scratch bytes on every run |
| `X86Hazards.NoCompareIsClean` | src/ucm/bistro/bistro_x86_64.c:193-214 | without a compare there are no scratch bytes at all |
| `X86Hazards.StalePop` | src/ucm/bistro/bistro_x86_64.c:193-214 | a pop from the scratch slot of an earlier compare gives the same registers exactly when the slot held rax before |
| `X86Patch.PopAfterCompare` | src/ucm/bistro/bistro_x86_64.c:193-214 | compare, lower the stack by eight, pop: registers agree exactly when the slot held rax before |
| `X86Patch.StalePopMoves` | src/ucm/bistro/bistro_x86_64.c:124-253 | the relocator accepts such a prefix |
| `X86Patcher.Patcher.AllocateCode` | src/ucm/bistro/bistro.c:114-156 | blocks are handed out one after the other, aligned, until the area is used up; fails exactly then |
| `X86Patcher.Patcher.ConstructOrigFunc` | src/ucm/bistro/bistro_x86_64.c:255-297 | succeeds exactly when the prefix is movable and the area has room, and writes only the newly used part of it |
| `X86Patcher.Patcher.Patch` | src/ucm/bistro/bistro_x86_64.c:299-344 | on success patch and trampoline are installed and the saved bytes are the old ones; only the patched bytes and the newly used area change |
| `X86Patcher.PatchedBehaves` | src/ucm/bistro/bistro_x86_64.c:299-344 | after a successful patch, from every state: calling the function arrives at the hook, and calling the original does what the prefix did |
| `X86Patcher.RestoreUndoes` | src/ucm/bistro/bistro.c:73-106 | putting the saved bytes back leaves every byte outside the area as it was before the patch |
| `X86Patcher.PatchThenRestore` | src/ucm/bistro/bistro.c:73-106 | patching and restoring gives back every byte outside the newly used area; the patch succeeds exactly when the prefix is movable and the area has room |
| `Bytes.U32Held` | src/ucm/bistro/bistro_x86_64.c:28-66 | a 32-bit field written little-endian reads back |
| `Bytes.U64Held` | src/ucm/bistro/bistro_x86_64.c:28-66 | a 64-bit field written little-endian reads back |
| `AArch64Relocator.MovIs` | src/ucm/bistro/bistro_aarch64.c:47-50 | the shifted and ored fields of a mov do not overlap |
| `AArch64Relocator.LdrIs` | src/ucm/bistro/bistro_aarch64.c:81-82 | the shifted and ored fields of a literal load do not overlap |
| `AArch64Relocator.AdrpMask` | src/ucm/bistro/bistro_aarch64.c:203-204 | mask and value select exactly the ADRP instructions of the architecture |
| `AArch64Relocator.RecognisedWords` | src/ucm/bistro/bistro_aarch64.c:169-204 | the masks and values select exactly the store pairs, compares, moves, loads and ADRP of the architecture by their fields, and say which register each notes |
| `AArch64Relocator.CopiedStaysPut` | src/ucm/bistro/bistro_aarch64.c:169-202 | a copied word belongs to none of the classes that branch or read relative to their address |
| `AArch64Relocator.Relocation.RelocateOne` | src/ucm/bistro/bistro_aarch64.c:153-229 | by the fields of the word: refuses exactly the words that are not of a recognised class; otherwise emits the translation and strikes the noted register |
| `AArch64Relocator.Relocation.RelocateCode` | src/ucm/bistro/bistro.c:174-212 | succeeds exactly when all covered words are recognised and the translation fits; a buffer of four times the length and twelve bytes always suffices |
| `AArch64Relocator.AvailBits` | src/ucm/bistro/bistro_aarch64.c:153-229 | a register is left exactly when it was available and no word noted it |
| `AArch64Meaning.SignExtendIs` | src/ucm/bistro/bistro_aarch64.c:118-125 | the two shifts read the low bits as a signed number, for every value and width |
| `AArch64Meaning.AdrpDisplacement` | src/ucm/bistro/bistro_aarch64.c:203-215 | the displacement is 4096 times the signed 21-bit immediate |
| `AArch64Meaning.AdrpExact` | src/ucm/bistro/bistro_aarch64.c:203-215 | the loaded value is that of the architecture exactly when the instruction starts a page |
| `AArch64Meaning.Load64Run` | src/ucm/bistro/bistro_aarch64.c:144-151 | movz and three movk leave exactly the value in the register, for every 64-bit value |
| `AArch64Meaning.JumpRun` | src/ucm/bistro/bistro_aarch64.c:127-142 | ldr and br arrive at the destination and change that register only |
| `AArch64Meaning.InStepExactly` | src/ucm/bistro/bistro_aarch64.c:153-229 | the moved prefix keeps step with the original exactly when each ADRP in it starts a page |
| `AArch64Meaning.RunInStep` | src/ucm/bistro/bistro_aarch64.c:153-229 | a prefix in step ends in the same state as the original |
| `AArch64Meaning.CarrierIs` | src/ucm/bistro/bistro_aarch64.c:263-277 | the carrier is one of x9 to x15 that no word noted; there is none exactly when all are noted |
| `AArch64Meaning.LeastCarrier` | src/ucm/bistro/bistro_aarch64.c:263-277 | every register of x9 to x15 below the carrier is noted by some word, so it is the least that is free, and without one all are noted |
| `AArch64Meaning.RelocateFunc` | src/ucm/bistro/bistro_aarch64.c:232-281 | never reports a small buffer; no memory exactly when the code area is full; succeeds exactly when moreover all words are recognised and a carrier is left; the code fits in the allocated block, and for whole words in the asserted length |
| `AArch64Meaning.TrampolinePreserves` | src/ucm/bistro/bistro_aarch64.c:232-281 | from any state the trampoline arrives at the end of the prefix in the state of the original, but for the carrier |
| `AArch64Meaning.CarrierWritten` | src/ucm/bistro/bistro_aarch64.c:194-202 | the prefix writes the carrier exactly when a load updates it as its base |
| `AArch64Meaning.CarrierKept` | src/ucm/bistro/bistro_aarch64.c:194-202 | unless the prefix writes it, the original leaves the carrier alone |
| `AArch64Meaning.BaseClobbered` | src/ucm/bistro/bistro_aarch64.c:194-202 | an accepted load with write-back whose base becomes the carrier |
| `AArch64Meaning.AdrpOffPage` | src/ucm/bistro/bistro_aarch64.c:203-215 | an accepted ADRP whose replacement is four too high |
| `AArch64Meaning.FitsExactly` | src/ucm/bistro/bistro_aarch64.c:243-273 | code and return jump keep to the asserted length for every accepted prefix exactly when the patch length is whole words |
| `AArch64Meaning.AllocationFits` | src/ucm/bistro/bistro_aarch64.c:243-247 | they fit in the allocated block for every patch length |
| `EventHandlers.HandlerList.Run` | src/ucm/event/event.c:498-662 | over every sequence of add, remove and unset by users: the list holds exactly the subscriptions they leave, by priority and then age, and always the original handler |
| `EventHandlers.HandlerList.HandlerAdd` | src/ucm/event/event.c:498-513 | adds exactly this handler behind all of the same priority |
| `EventHandlers.HandlerList.HandlerRemove` | src/ucm/event/event.c:515-520 | takes out exactly this handler, never the original one |
| `EventHandlers.HandlerList.UnsetEventHandler` | src/ucm/event/event.c:641-662 | takes the events from the matching subscriptions, drops the emptied ones and keeps all others in order |
| `EventHandlers.SortedUnique` | src/ucm/event/event.c:498-513 | order and members determine the list |
| `EventHandlers.HandlerList.Dispatch` | src/ucm/event/event.c:139-148 | dispatching is the fold of the callbacks over the list |
| `EventHandlers.RunsSubscribed` | src/ucm/event/event.c:139-148 | every subscribed handler runs once, in list order, and no other |
| `EventHandlers.OrigDivides` | src/ucm/api/ucm.h:281-284 | exactly the negative priorities come before the original handler |
| `EventHandlers.NativeDispatch` | src/ucm/event/event.c:58-148 | a native event runs the negative subscribers, makes the real call exactly once if and only if the result is still invalid, with the parameters they left, and then runs the others |
| `EventHandlers.OrigLast` | src/ucm/api/ucm.h:248-256 | the original handler runs last exactly when no subscriber of the event comes after it |
| `EventHandlers.AsDocumented` | src/ucm/api/ucm.h:248-256 | dispatching equals the documented order, all callbacks and then the original handler, exactly in that case |
| `EventHandlers.LateIsIgnored` | src/ucm/event/event.c:139-148 | a subscriber of priority 0 that rewrites the parameters: the real call has the old ones, the documented order the new ones |
| `EventHandlers.OtherDispatch` | src/ucm/event/event.c:58-120 | an event that is not native makes no real call |
| `EventHandlers.InvalidIffUnset` | src/ucm/api/ucm.h:248-256 | with callbacks that keep the rule, the result is invalid exactly when no callback has set it |
| `MappingTracker.ClientIsSubMap` | src/ucm/event/event.c:176-481 | in every state of every interleaving the pages the client holds are mapped as the client recorded them |
| `MappingTracker.RunKeeps` | src/ucm/event/event.c:176-481 | the invariant behind it holds along every run |
| `MappingTracker.EnterKeeps` | src/ucm/event/event.c:161-174 | entering a hooked call keeps the invariant |
| `MappingTracker.AnnounceKeeps` | src/ucm/event/event.c:176-228 | announcing an unmap keeps the invariant |
| `MappingTracker.PerformKeeps` | src/ucm/event/event.c:58-120 | the real call, successful or not, keeps the invariant |
| `MappingTracker.NoteKeeps` | src/ucm/event/event.c:309-356 | noting an attachment keeps the invariant |
| `MappingTracker.RecordKeeps` | src/ucm/event/event.c:176-207 | announcing a map keeps the invariant |
| `MappingTracker.LeaveKeeps` | src/ucm/event/event.c:161-174 | leaving a hooked call keeps the invariant |
| `MappingTracker.RaceIsRun` | src/ucm/event/event.c:210-228 | an interleaving of permitted steps that ends in a dangerous state |
| `MappingTracker.RaceIsUnsafe` | src/ucm/event/event.c:210-228 | unmapping there a page whose map call had not returned leaves the client with a page that is gone |
| `MappingTracker.SafeExactly` | src/ucm/event/event.c:210-228 | the client is safe after a real call exactly when it holds none of the pages that the call takes away |
| `MappingTracker.OnlyRacesHurt` | src/ucm/event/event.c:210-228 | such a page was mapped by a call that had not returned when this one was entered |
| `MappingTracker.RecordTells` | src/ucm/event/event.c:176-207 | announcing a map tells the client of exactly the pages that the kernel has given the call, with its generation, and changes no other entry; an advice tells it nothing |
| `MappingTracker.EveryMappingIsTold` | src/ucm/event/event.c:176-481 | in every run that ends with no call in progress the client holds every page that a real call mapped since the start, by the generation the kernel gave it, unless a range announced later covers the page |
| `MappingTracker.AnnouncesTaken` | src/ucm/event/event.c:176-481 | of the mapped pages, a call announces as unmapped exactly those its real call takes away, a detach aside |
| `MappingTracker.DetachAnnounces` | src/ucm/event/event.c:358-379 | a detach of an attachment whose size was noted announces exactly that attachment |
| `MappingTracker.SizeStays` | src/ucm/event/event.c:287-379 | over every run a noted size stays until its address is detached, replaced or noted again |
| `VfsServer.Server.Loop` | src/tools/vfs/vfs_server.c:332-379 | every run ends as its turns say, with those entries, having gained exactly what their replies say: it overruns the arrays exactly when more connections come than there is room; when stopped, each connection was closed exactly once and each mount had its descriptor closed and its process unmounted exactly once, if and only if no accepted connection refused to become non-blocking; when polling fails, if and only if moreover no entry owned one |
| `VfsServer.Server.Scan` | src/tools/vfs/vfs_server.c:354-374 | what becomes of every entry, told by the entries before and after: a readable connection stays exactly for a stop or a mount that succeeds, and is then mounted; a readable mounted or sent entry is gone; a writable mounted one is sent exactly if the send succeeds; what those had that are gone is closed, and nothing else but connections refused at once; accepted connections follow in order; it overruns the arrays exactly when they are too many, and asks to stop exactly when a client did |
| `VfsServer.Server.ScanEntries` | src/tools/vfs/vfs_server.c:354-374 | serving and compacting in place keeps exactly the entries that are still open, in order, followed by exactly the connections accepted meanwhile, and gains exactly those and the successful mounts |
| `VfsFates.ScanFates` | src/tools/vfs/vfs_server.c:224-302 | every entry meets the fate that its state, its events and its message say |
| `VfsFates.ScanCloses` | src/tools/vfs/vfs_server.c:151-200 | a scan closes the connections refused at once and everything that an entry had that is gone, and nothing else |
| `VfsFates.OneFate` | src/tools/vfs/vfs_server.c:354-374 | an entry is in one state only, and not gone if it is in any |
| `VfsRounds.ScanStep` | src/tools/vfs/vfs_server.c:355-372 | serving, appending and compacting one entry in place continues the list |
| `VfsRounds.NothingLostIff` | src/tools/vfs/vfs_server.c:123-200 | a run loses no connection exactly when none is accepted that then refuses to become non-blocking |
| `VfsRounds.BalanceIff` | src/tools/vfs/vfs_server.c:332-379 | everything gained was given back exactly when no entry owns anything and nothing was lost |
| `VfsRounds.LosesConnection` | src/tools/vfs/vfs_server.c:123-200 | a turn after which the stopped daemon has not closed a connection |
| `VfsRounds.FailingKeepsConnection` | src/tools/vfs/vfs_server.c:344-352 | turns after which polling fails and a connection is still open |
| `VfsRounds.CrowdedIff` | src/tools/vfs/vfs_server.c:123-149 | a scan writes past the arrays exactly when an entry brings a connection while every place is taken |
| `VfsRounds.TooMany` | src/tools/vfs/vfs_server.c:123-149 | as many connections as there are places, in a row, overrun the arrays |
| `VfsRounds.SignalStops` | src/tools/vfs/vfs_server.c:314-379 | a signal stops the daemon, unless polling fails or the arrays are overrun first |
| `VfsServer.Server.AddFd` | src/tools/vfs/vfs_server.c:123-149 | appends exactly one entry, polled for input, or nothing if the descriptor refuses; overruns the arrays exactly when they are full |
| `VfsServer.Server.RemoveFd` | src/tools/vfs/vfs_server.c:151-174 | gives back exactly what the entry owned |
| `VfsServer.Server.RemoveAllFds` | src/tools/vfs/vfs_server.c:176-181 | afterwards everything gained has been given back, but for what was lost |
| `VfsServer.Server.Accept` | src/tools/vfs/vfs_server.c:183-200 | an accepted connection is closed at once if its credentials cannot be asked for, else appended, else lost if it refuses to become non-blocking |
| `VfsServer.Server.MountFor` | src/tools/vfs/vfs_server.c:202-222 | the entry is mounted and polled for output, and exactly the mount and its process are gained, or it is dropped and nothing is; the account stays balanced |
| `VfsServer.Server.Receive` | src/tools/vfs/vfs_server.c:224-257 | the message decides the state of the entry, what is gained and whether to stop; the account stays balanced |
| `VfsServer.Server.HandlePollin` | src/tools/vfs/vfs_server.c:259-276 | one readable entry: its new state, what it appends, exactly what is gained and that the account stays balanced |
| `VfsServer.Server.HandlePollout` | src/tools/vfs/vfs_server.c:278-302 | one writable entry: its new state and that the account stays balanced |
| `VfsServer.Server.CopyFdState` | src/tools/vfs/vfs_server.c:304-312 | moves an entry down and leaves the others alone |
| `VfsServer.Server.PollEvents` | src/tools/vfs/vfs_server.c:86-103 | only the reported events change |
| `ScopeMatching.FindScopeEnds` | src/tools/profile/read_profile.c:476-501 | for every trace, balanced or not: every access is inside the stack exactly when the nesting is; then each begin gets exactly its matching end or none, although slots are never cleared |
| `ScopeMatching.Nested` | src/tools/profile/read_profile.c:484-487 | begins in a row stay inside the stack exactly up to its upper half |
| `ScopeMatching.SlotIsMatch` | src/tools/profile/read_profile.c:490-498 | a slot that was never cleared holds the begin that matches, and no other begin does |
| `ScopeMatching.EndOfMatches` | src/tools/profile/read_profile.c:484-498 | counting forward from a begin finds its matching end, or there is none |
| `ScopeMatching.MatchUnique` | src/tools/profile/read_profile.c:484-498 | a begin has at most one matching end |
| `ScopeMatching.DisplayDepths` | src/tools/profile/read_profile.c:511-534 | the displayed depth of every record, never negative |
| `ScopeMatching.MatchedShownAlike` | src/tools/profile/read_profile.c:511-534 | both ends of a scope are shown at the same depth and its content deeper |

## Findings

Where a promise does not hold on all inputs, the model keeps the code as it is, names an input and gives the exact
condition.

- x86-64, stale pop: the rewritten compare saves rax below the stack pointer. A prefix that compares, lowers the stack
  pointer by eight and pops is accepted (`X86Patch.StalePopMoves`), and its pop then reads the saved rax. Registers agree
  exactly when the slot held rax before (`X86Patch.PopAfterCompare`, and `X86Hazards.StalePop` for a pop after any run
  that comes back to the slot). `X86Hazards.UnreadIsClean` gives a condition that can be checked on the prefix.
- AArch64, ADRP: the replacement adds the page displacement to the address of the instruction without clearing its low
  twelve bits. It is exact if and only if the instruction starts a page (`AArch64Meaning.AdrpExact`,
  `AArch64Meaning.InStepExactly`; input: `AArch64Meaning.AdrpOffPage`).
- AArch64, load with write-back: only the loaded register is noted, not the updated base, so the base can be chosen to
  carry the return address (`AArch64Meaning.BaseClobbered`). This happens if and only if such a load has the carrier as
  its base (`AArch64Meaning.CarrierWritten`).
- AArch64, code length: the code and the return jump keep to the length that `src/ucm/bistro/bistro_aarch64.c:273` asserts, for
  every accepted prefix, if and only if the patch length is a multiple of four (`AArch64Meaning.FitsExactly`). The block
  that is allocated is longer and always suffices (`AArch64Meaning.AllocationFits`).
- Mapping tracker: if a range is unmapped by a call that was entered before another thread's map call for it had
  returned, the client can be left with a page that is gone (`MappingTracker.RaceIsRun`, `MappingTracker.RaceIsUnsafe`).
  A real call leaves the client safe if and only if it takes away no page that the client holds, and every such page was
  mapped by a call that had not returned then (`MappingTracker.SafeExactly`, `MappingTracker.OnlyRacesHurt`). Without
  that, the client is safe in every interleaving (`MappingTracker.ClientIsSubMap`).
- Event documentation: `src/ucm/api/ucm.h:248-256` says that the original handler gets the parameters after all
  callbacks. The code runs it in its place in the list. That is what is documented if and only if no subscriber of the
  event has a priority of zero or more (`EventHandlers.OrigLast`, `EventHandlers.AsDocumented`, with
  `EventHandlers.OrigDivides`; input: `EventHandlers.LateIsIgnored`).
- VFS daemon, lost connection: a failure to make an accepted connection non-blocking is ignored
  (`src/tools/vfs/vfs_server.c:123-149`, `183-200`), so no one closes it. A stopped run has given everything back if and
  only if that does not happen (`VfsServer.Server.Loop`, `VfsRounds.NothingLostIff`; input: `VfsRounds.LosesConnection`).
- VFS daemon, failed poll: the loop returns without removing the entries (`src/tools/vfs/vfs_server.c:344-352`). Then
  everything was given back if and only if moreover no entry owned a connection (`VfsServer.Server.Loop`,
  `VfsRounds.BalanceIff`; input: `VfsRounds.FailingKeepsConnection`).
- VFS daemon, full table: entries are added without a test for room (`src/tools/vfs/vfs_server.c:123-149`). All writes
  stay in the arrays if and only if no connection is brought while every place is taken (`VfsServer.Server.Loop`,
  `VfsRounds.CrowdedIff`; input: `VfsRounds.TooMany`). What the source does after such a write is undefined; the model
  stops there.
- Profile scopes: the stack of open scopes is indexed without a test (`src/tools/profile/read_profile.c:484-496`). Every
  access is inside it if and only if the nesting stays within its bounds (`ScopeMatching.FindScopeEnds`; input: one begin
  more than `ScopeMatching.Nested` allows). What the source does after an access outside is undefined; the model stops.

## Left out

Heap:

- Footprint accounting and limits, `mallinfo`, statistics, locks, fork handlers, `mspace` clones, footers, calloc,
  `independent_*` and `inspect_all`: bookkeeping or near copies.
- `mmap_resize` is taken to refuse, so a directly mapped chunk always moves in `Reallocation.Realloc`.
- Growing the break in two unequal steps or not contiguously, and giving back a first extension that was too small
  (`malloc.c:4123-4145`, `4159-4175`). An answer of the system that overlaps memory in use counts as a failure, and the
  break is granted only above the segments that came from it.
- Segment records are not written to memory: the segment list is a sequence and each closed segment keeps the address
  of its record. The space for it is reserved in the layout, and `has_segment_link` reads those addresses.
- Heaps.Heap.AddSegment: the record itself is among those words that are not written, as said above.
- Heaps.Heap.SysAlloc: does not model the footprint limit and the growth paths named above.
- Heaps.Heap.Obtain: does not model the non-contiguous growth named above.
- Heaps.Heap.Morecore: does not model the partial failure named above.
- Heaps.Heap.MmapAlloc: does not model the footprint limit.
- Heaps.Heap.TrimTop: shrinking the break is all or nothing, where the source takes whatever amount the break moved by.
- Heaps.Heap.SysTrim: the same.
- Heaps.Heap.Free: a failed unmap of a direct mapping is not told apart from a successful one; the chunk is gone for the
  program in both cases.
- Heaps.Heap.TryReallocChunk: is for chunks of segments; a directly mapped chunk goes to `mmap_resize`.
- Heaps.Heap.Memalign: alignments above 2^63, for which the doubling loop of the source does not end.
- Heaps.Heap.RoundAlignment: the same.
- Reallocation.Realloc: memory is word-granular, so a last partial word of the copied bytes is not described.
- Reallocation.CopyWords: copies whole words, for the same reason.
- Page size and granularity are multiples of 4096 that divide 2^63, as `init_mparams` checks for powers of two.
- Store addresses are those of live payload words; what a program does outside its chunks is not modelled.

Code relocation:

- Code and data are separate memories, so code that stores into code is not described, and code does not wrap around the
  end of the address space.
- `mprotect`, cache flushing, `dladdr`, dumping and the heap allocation of restore points. `AArch64Meaning.RelocateFunc`
  builds the trampoline as words; patching and restoring are modelled for x86-64.
- On AArch64 the effect of a copied instruction is an arbitrary function of the state, the same at both addresses.
- `bistro_ppc64.c`, which has no relocation.

Event layer:

- `ucm_set_event_handler` with its validation and installers, and external events.
- MappingTracker.ClientIsSubMap: ranges are whole pages, MREMAP_FIXED is not used, break calls are serialised, attachment
  sizes are what the system reports and not zero, and a failed real call has no effect.
- `reloc.c`, `cudamem.c`, `rocmmem.c`, `install.c`, `malloc_hook.c` and `log.c`.

VFS daemon and profile:

- VfsServer.Server.Loop: a run is a finite list of turns with the answers of the system; logging and signal set-up are
  not modelled.
- Of profile records, times, locations, request ids and paging are display only and not modelled.
