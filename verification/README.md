# A verified model of the kernel allocator and the UDI environment

This project models three parts of the repository in Dafny and proves what they are for.

1. **The boundary-tag allocator** (`malloc.c`, and `lib/malloc.c` where it differs), in the kernel's
   32-bit configuration: words of 4 bytes, alignment 8, `MINSIZE` 16, no mmap, no trim, non-contiguous
   `MORECORE`. Memory is a map from addresses to words; `fd`, `bk`, `size` and `prev_size` are really
   stored in it. A ghost catalogue (`Heap.Book`) says which chunks exist, what each is used for, and the
   order of every list. `Heap.Inv` ties the two together and states what `do_check_malloc_state`
   (`malloc.c:2612-2863`) checks at run time: chunks tile their regions; tags, footers and `PREV_INUSE`
   agree with the chunks; no binned chunk borders another or top; every free chunk is on exactly one
   list; `fd` and `bk` are inverse; large bins are sorted. `MallocState.Valid` adds the bitmap, the
   fastbin limits, top, and the count of bytes obtained.
2. **The UDI segmented buffer** (`udi/common/udi_buf.c`): a list of segments over physical memory whose
   view is one flat byte sequence, filled up with `0xCA`; and the checksum over it.
3. **The asynchronous UDI machinery**: the control-block pool (`udi_MA_util.c`), the
   continuation-passing tree unbind (`udi_MA.c`), and the allocation daemon (`udi_alloc.c`), each as
   atomic steps, one per lock section or acknowledgement.

Objects that the program updates in place are classes (`MallocState`, `Buffer`, `Pool`, `Unbinder`,
`Environment`) whose methods follow the program's functions branch by branch. Each method is specified
by what it does to an abstract value: the catalogue, the flat bytes, or the sequence of events still to
come. Whole runs are covered by `Client.Run`, `UdiBuf.Run`, `Unbind.UnbindTree`, `CbPool.Interleave`
and `AllocDaemon.Play`. `Determined.MallocDetermined` proves that the heap at a call and the system's
answers decide what malloc returns, except among best fits of one size.

Reading order: `Memory`, `Ring`, `Heap` (the invariant), `HeapSteps` and `TopSteps` (one lemma per kind
of change to the heap), `Census` and `MapSum` (bytes and holes), `BinIndex` and `Binmap` (bit tricks),
`FreeSteps`, `Joining`, `AllocSteps` and `SystemSteps` (lemmas for the methods), `Arena` (the methods), then
`Copying`, `Resize`, `Realloc`, `Memalign`, `Calloc`, `Ialloc`, `Mallinfo`, `Determined`, `Client`; for UDI
`Segments`, `UdiBuf`, `Checksum`, `LoneBytes`, `CbPool`, `Unbind`, `AllocDaemon`. In a proof, `hide P;` keeps the
definition of P from the solver where only the name is needed.

## Where the code and its description disagree

- `malloc.c:2117-2122` says that equal-sized chunks of a large bin are kept with the most recently freed
  at the front. The code compares a size against a size word that carries flag bits
  (`malloc.c:3539`), so a chunk of the smallest size in the bin goes to the very back, behind its equals.
  `AllocSteps.AheadOfEquals` proves that this is the only exception, for the slot that
  `Arena.MallocState.FindSlot` takes; `AllocSteps.BehindItsEqual` is an input.
- `MALLOC_COPY` of zero words copies eight words (`malloc.c:1784-1801`). `Copying.MallocCopy` states
  the exact count; the only caller modelled passes at least ten words.
- `iALLOc` in `malloc.c` does not consolidate the fastbins first, as `lib/malloc.c` does. It writes a
  size word with `PREV_INUSE` set into the first piece without looking whether the chunk before it is
  free. `Ialloc.IAlloc` proves that the heap is intact afterwards exactly unless, at the call, a fastbin
  serves the padded total with a chunk whose `PREV_INUSE` bit is clear; then there is no catalogue at all of
  which the words left in memory keep the invariant. `Ialloc.RecycleBehindFree` reaches such memory from the
  first call on: two adjacent blocks of 200 and 8 bytes are allocated and freed, and one element of 8 bytes is
  asked for.
- `iALLOc` adds up the padded sizes without looking whether the sum wraps around (`malloc.c:4485-4499`).
  `Ialloc.AskedIsNeeded` proves that it asks for what the elements need exactly if that is less than the
  address space; `Ialloc.WrappingSizes` is an input for which it asks for 16 bytes in place of 4 GB. calloc's
  product is the same case (`Calloc.CAlloc`).
- `mEMALIGn` adds the alignment and `MINSIZE` to the padded request without looking whether the sum wraps
  around (`malloc.c:4265`), and doubles a word to reach the alignment (`malloc.c:4251`).
  `Memalign.MemAlign` proves that a block it returns is large enough exactly if the sum does not wrap
  around, and that the call never ends exactly for an alignment above 2^31; `Memalign.WrappingInput` is an
  input for which it asks for 16 bytes in place of 2 GB.
- `_udi_tag_compute` completes a pending odd byte when a one-byte segment arrives, but leaves it
  pending, so the byte is summed again. `LoneBytes.FlatForAllContents` proves that the segment-wise
  checksum is the flat one for all contents of a split into segments exactly if no one-byte segment
  arrives while a byte is pending; `Checksum.LoneByteBreaks` is an input for which the sums differ.
- `_udi_tag_compute` tests `ptr < mem + len - 1`. For a segment without bytes whose start is `NULL`, as
  deletion and allocation without memory leave it, the right side wraps around, and the loop reads
  memory from address 0 on. `_udi_buf_tag_compute` looks for the start of its range in the first segment
  that is not empty only, and otherwise reads what lies behind that segment, or walks for ever if there
  is none. `Checksum.BufTagCompute` proves that it reads only the range, and ends, exactly if neither happens,
  and is right about the range then; `Checksum.DeletedSegmentRunsAway`, `Checksum.ReservedRunsAway` and
  `Checksum.LaterSegmentMissed` are inputs.

## Model

| member | source | states |
|---|---|---|
| HeapSteps.TakeInv | malloc.c:2144-2149 | Unlinking a chunk from any position of any bin keeps the whole invariant with the chunk in transit, and changes no payload |
| HeapSteps.MergeInv | malloc.c:3783-3800 | Two adjacent chunks in transit may be counted as one; no store is needed for the invariant to hold |
| HeapSteps.SplitInv | malloc.c:3588-3596 | A chunk in transit may be counted as two |
| HeapSteps.PutInv | malloc.c:3555-3559 | Linking a chunk in at a place that respects the order of the bin, with both its tags stored, keeps the invariant and all payloads |
| HeapSteps.CloseInv | malloc.c:3583-3585 | Storing the size word and the in-use bit behind a chunk turns it into a block in use, and nothing else changes |
| HeapSteps.PushInv | malloc.c:3767-3770 | Pushing a block on its fastbin keeps the invariant; its neighbours' tags stay as they are |
| HeapSteps.PopInv | malloc.c:3424-3431 | Taking the head of a fastbin keeps the invariant |
| TopSteps.CarveInv | malloc.c:3705-3713 | Cutting a block off the bottom of top keeps the invariant |
| TopSteps.SinkInv | malloc.c:3826-3831 | A chunk that borders top may be absorbed by it |
| TopSteps.FenceInv | malloc.c:3231-3250 | Ending a region by two fenceposts keeps the invariant, for every size of the old top down to the smallest |
| TopSteps.RegionInv | malloc.c:3216-3220 | Fresh memory anywhere becomes a region with its own top |
| Resize.HalvesInv | malloc.c:4142-4148 | The three stores that cut an open chunk into two blocks in use keep the invariant |
| Resize.ShiftInv | malloc.c:4056-4064 | The stores that grow a block into top keep the invariant and every payload, its own included |
| Resize.OwnStoresInv | malloc.c:4103-4123 | Whatever an owner stores inside its block, the invariant and all other blocks are untouched |
| BinIndex.LargebinInterval | malloc.c:2183-2217 | Each index between 32 and 94 stands for exactly one interval of sizes, a quarter of a doubling |
| BinIndex.LargebinWhere | malloc.c:2183-2217 | Every large size lies in the interval of its index |
| BinIndex.BitsAreIndex | malloc.c:2197-2217 | The branch-free computation, wrap-around included, which the methods use, equals the index defined by floor(log2) and the next two bits |
| BinIndex.HighestBitIsLog2 | malloc.c:2203-2211 | The three mask-and-shift steps find the highest set bit of any 16-bit number |
| BinIndex.BinIndexMonotone | malloc.c:2183-2220 | A larger size never has a smaller index, over small and large sizes together, so a higher bin holds only larger chunks |
| BinIndex.BinIndexRange | malloc.c:2183-2220 | Every chunk size has an index of an indexed bin |
| Binmap.MarkBinMarks | malloc.c:2298-2300 | mark_bin sets the bit of that bin and no other, within 32-bit words |
| Binmap.UnmarkBinUnmarks | malloc.c:2298-2300 | unmark_bin clears the bit of that bin and no other |
| Binmap.NoneAbove | malloc.c:3619-3620 | bit > map means that no bit is set at or above it |
| Binmap.SomeAbove | malloc.c:3630-3635 | bit <= map means that the upward search meets a set bit inside the word |
| Arena.MallocState.Unlink | malloc.c:2144-2149 | The macro takes a chunk off the list it is on, wherever it is, and leaves its tags readable |
| Arena.MallocState.MergeBackward | malloc.c:3783-3789 | Afterwards nothing free lies before the chunk; the bytes are the same; only a binned chunk has disappeared |
| Arena.MallocState.MergeForward | malloc.c:3796-3800 | The free chunk behind is unlinked and swallowed, and the end of the result is ready for a footer |
| Arena.MallocState.PlaceUnsorted | malloc.c:3808-3816 | The chunk becomes the first of the unsorted list with both tags; every other list and all payloads stay |
| Arena.MallocState.PlaceFree | malloc.c:3796-3816 | A chunk that does not border top swallows the free chunk behind it, if there is one, and becomes the first of the unsorted list |
| Arena.MallocState.PlaceTop | malloc.c:3826-3831 | A chunk that borders top becomes the start of top |
| Arena.MallocState.Coalesce | malloc.c:3780-3831 | Freeing a chunk with any neighbours keeps the invariant, removes exactly that block, and changes no fastbin and no payload; a chunk between chunks in use joins the free ones as it is; the merged chunk reaches from the free neighbour before it to the one behind it, and is the first of the unsorted list, or part of top if it borders top; no other list changes |
| Joining.FreedIsJoined | malloc.c:3780-3831 | What freeing a chunk does to the free chunks, the unsorted list and top is decided by the sizes and places of the free chunks, the list and the start of top alone |
| Arena.MallocState.FastPush | malloc.c:3756-3771 | A small block becomes the head of its own fastbin, last in first out |
| Arena.MallocState.Free | malloc.c:3727-3878 | free of null or of any block in use keeps the invariant, removes exactly that block, and leaves every other block's bytes alone; a small block becomes the head of its fastbin; a larger one is merged with its free neighbours or top, and exactly if the space so freed reaches 128 KB, top's included, the fastbins are emptied; if they are emptied, their chunks join after the block |
| Arena.MallocState.ConsolidateBin | malloc.c:3937-3983 | The whole chain of one fastbin is consolidated; the other fastbins and all blocks stay; its chunks join the free space one after the other, from the head of the chain on |
| Arena.MallocState.MallocConsolidate | malloc.c:3895-3990 | Terminates with every fastbin empty and the flag clear; blocks, fenceposts, bytes obtained and payloads are unchanged; the chunks of the fastbins join the free space one after the other, from the smallest size on, which decides the unsorted list |
| Arena.MallocState.InitState | malloc.c:2483-2513 | The zero-filled state becomes a valid empty heap |
| Mallinfo.NoneAdjacent | malloc.c:2613-2646 | Once the fastbins are empty, both neighbours of a free chunk are in use (or the end of a region) |
| Mallinfo.FreeBytesKept | malloc.c:3895-3990 | Consolidation and sorting change how free bytes are divided, never how many there are |
| Arena.MallocState.TakeWhole | malloc.c:3519-3523 | Handing out a whole chunk sets one in-use bit and makes exactly that chunk a block |
| Arena.MallocState.SplitVictim | malloc.c:3493-3511 | With an empty unsorted list, the split gives a block of nb bytes and a remainder that is alone on that list: no chunk is lost, no other is touched |
| Arena.MallocState.TakeFitting | malloc.c:3577-3597 | The chosen chunk is handed out whole exactly if the rest would be smaller than a chunk; the rest is recorded as the last remainder exactly for a small request |
| Arena.MallocState.FindSlot | malloc.c:3525-3553 | The slot keeps the bin sorted; among equals it is the one the code takes, which differs from its comment |
| AllocSteps.AheadOfEquals | malloc.c:3525-3553 | The slot is ahead of all chunks of the same size exactly unless the smallest chunk of the large bin has that size |
| AllocSteps.BehindItsEqual | malloc.c:3533-3536 | A chunk of 512 bytes goes behind the one that is in its bin |
| Arena.MallocState.PlaceInBin | malloc.c:3525-3559 | The chunk is filed under its index in the slot FindSlot gives, with its bit marked; every other bin is unchanged |
| Arena.MallocState.SortOne | malloc.c:3481-3560 | One round of the loop on the oldest unsorted chunk: taken as last remainder, taken as exact fit, or filed, each exactly under its condition, and what is recorded as the last remainder |
| Arena.MallocState.DrainUnsorted | malloc.c:3481-3560 | The loop ends with the oldest chunk that fits exactly, with the last remainder if there is none and it is alone, large enough and the request small, or else with an empty unsorted list and the same free chunks |
| AllocSteps.DrainFound | malloc.c:3481-3523 | With no exact fit among the chunks passed, the next one found is what the lists as they were at the start decide |
| AllocSteps.SearchDecided | malloc.c:3562-3684 | After the unsorted chunks were filed in vain, the best fit, or none, and the last remainder it leaves are what the lists as they were at the start decide |
| Arena.MallocState.ClearMark | malloc.c:3640-3645 | A false alarm clears one bit, and a clear bit still implies an empty bin |
| Arena.MallocState.ScanBins | malloc.c:3611-3645 | The bitmap scan terminates at the first non-empty bin from idx on, having skipped only empty ones |
| Arena.MallocState.ScanLarge | malloc.c:3571-3600 | The first chunk found from the back of the bin is the smallest of the bin that fits |
| Arena.MallocState.SearchBins | malloc.c:3562-3684 | The chunk taken is a smallest free chunk of at least nb bytes; if none is taken, none fits; it is the last of its bin that is large enough, so the oldest of its size in the order of the bin |
| AllocSteps.BestFitOverall | malloc.c:3602-3608 | The best chunk of the first non-empty bin is the best of the whole heap |
| AllocSteps.NoneFitsOverall | malloc.c:3617-3628 | If the scan runs out of bins, no free chunk anywhere is large enough |
| AllocSteps.LastIsBest | malloc.c:3637-3651 | The last chunk of any bin above the request's own fits, and is the smallest there |
| AllocSteps.NoExactFit | malloc.c:3485-3496 | When the last remainder is taken, no free chunk has exactly the size asked for |
| Arena.MallocState.FastTake | malloc.c:3424-3431 | The head of the fastbin is taken, and is exactly as large as asked for |
| Arena.MallocState.SmallTake | malloc.c:3441-3454 | The oldest chunk of the small bin is taken, it fits exactly, and no free chunk fits better |
| Arena.MallocState.TakeReady | malloc.c:3424-3454 | The fastbin serves if its head is not null, then the small bin if it is not empty; if neither does, nothing has changed |
| Arena.MallocState.BypassSearch | malloc.c:3411-3418 | While nothing has been freed there is nothing to search: the lists refuse, and top is as it was |
| Arena.MallocState.SortAndSearch | malloc.c:3481-3684 | From the unsorted list to the bins: what is taken, from which list, and the last remainder afterwards are decided by the lists at the start; the result is a best fit or the last remainder, and if there is none no free chunk fits |
| Arena.MallocState.UseTop | malloc.c:3686-3714 | Top serves a request exactly if it can stay a chunk; the block is its bottom, and the bins are not touched |
| Arena.MallocState.TakeFree | malloc.c:3424-3684 | What is taken is a best fit of the heap at the call, or for a large request, if there are fast chunks, of that heap consolidated, whose free chunks are determined (`AllocSteps.ConsolidatedUnique`); which list it comes from and the last remainder afterwards are decided by that heap; a fastbin serves it exactly if its head is not null; if nothing is taken, no free chunk fits |
| Arena.MallocState.TopOrSystem | malloc.c:3686-3720 | If top can serve the request, the block is the bottom of top; otherwise the heap, consolidated if there are fast chunks, and MORECORE's answer decide the result |
| AllocSteps.PaddedSize | malloc.c:1992-2004 | A request in range is padded to a multiple of 8 with room for one word more than asked for, without wrap-around |
| AllocSteps.PadsBack | malloc.c:2912-2916 | The retry's request of nb - 7 bytes pads back to nb |
| SystemSteps.MoreCoreRequestCovers | malloc.c:3010-3042 | The page-rounded request is positive exactly if nb is below 2 GB less a page, and then covers nb and MINSIZE |
| SystemSteps.SwitchInv | malloc.c:3216-3250 | Moving to a new region with fenceposts in the old one keeps the invariant |
| Arena.MallocState.SwitchTop | malloc.c:3216-3262 | The old top ends in fenceposts; what is left of it is one extra block, or too small to be one |
| Arena.MallocState.GrowTop | malloc.c:3086-3095 | Contiguous memory makes top larger by the request and changes nothing else |
| Arena.MallocState.NewRegion | malloc.c:3216-3263 | The granted memory is top; what is left of the old top is freed, and it is too small for the request, so that still no free chunk fits |
| Arena.MallocState.ExtendHeap | malloc.c:2988-3263 | MORECORE is asked once, for the page-rounded request, unless that is not positive; top can serve the request afterwards exactly if what it gave, with the old top where it continues that, is enough; blocks and payloads survive whatever it does within its contract, and still no free chunk fits; a refusal changes nothing |
| AllocSteps.ConsolidatedUnique | malloc.c:3895-3990 | The heap decides what consolidation leaves free: any two heaps with the same blocks, dead chunks and region starts, and no fast chunk, have the same free chunks of the same sizes |
| AllocSteps.ChoiceDetermined | malloc.c:3374-3720 | A choice is a best fit of one consolidation of the heap if and only if it is one of every other |
| AllocSteps.FreeBounds | malloc.c:2613-2646 | Without fast chunks, a free chunk lies between blocks in use, dead chunks and the start of its region |
| Arena.MallocState.SysMalloc | malloc.c:2877-3297 | If there are fast chunks, the heap is consolidated and the request decided anew on it: by its lists, by its top, and only then by MORECORE; without fast chunks by MORECORE at once; the result is a new block exactly if one of them serves it, so a null result means that MORECORE was asked for enough memory, unless the request is 2 GB less a page or more, and did not give it |
| SystemSteps.Conclude | malloc.c:3374-3720 | What the lists, top and the system part decide one after the other is the result of the request on the heap at the call |
| SystemSteps.FailsForWant | malloc.c:2877-3297 | A request that malloc does not serve was served by no fastbin, no list and not by top, MORECORE was asked for it in vain, and if it gives whatever it is asked for, only a request of 2 GB less a page or more fails |
| Mallinfo.ConsolidatedTop | malloc.c:3895-3990 | The heap decides what consolidation makes of top, too, so whether top serves a request after it is determined |
| Determined.NoSmallHit | malloc.c:2907-2916 | If nothing fitted before the fastbins were consolidated, the small bin of the request is empty afterwards, so the retry takes from the unsorted list |
| Determined.MallocDetermined | malloc.c:3374-3720 | The heap at the call and the answers of MORECORE decide how a request is served and with which address, through consolidation, retry and system call; only among best fits of one size is there a choice |
| Arena.MallocState.MAlloc | malloc.c:3374-3720 | The heap at the call and MORECORE's answers decide the result: the head of the fastbin, if it has one; else the oldest chunk of the small bin, the unsorted chunk that fits exactly, the last remainder under its condition, or a best fit; else the bottom of top; else memory from MORECORE; on the heap consolidated first if there are fast chunks and the request is large or nothing else serves it; null exactly if none of them serves it; a non-null result is 8-aligned, new, disjoint by the invariant, at least as large as asked for and less than a chunk more; the last remainder afterwards is determined; no payload changes |
| Client.PiecesHeld | malloc.c:4447-4546 | The blocks of an independent allocation join the client's blocks, and all stay apart |
| Client.NeverInVain | malloc.c:3374-3720 | malloc fails on a request below 2 GB less a page only if the system has not given what it was asked for |
| Client.ServeMalloc | malloc.c:3374-3720 | malloc gives the client a new block of the size asked for; it does if the system gives what it is asked for |
| Client.ServeRealloc | malloc.c:3998-4153 | realloc keeps what was written as far as it fits, and succeeds if the system gives what it is asked for |
| Client.ServeMemalign | malloc.c:4224-4322 | memalign gives the client a new aligned block; it does if the system gives what it is asked for |
| Client.ServeIndependent | malloc.c:4447-4546 | An independent allocation, in either version, gives the client n new blocks, one behind the other, zero if that is asked for; the version of `malloc.c` is served unless it would take a chunk behind a free one; with `lib/malloc.c` it succeeds if the system gives what it is asked for |
| Client.ServeCalloc | malloc.c:4329-4390 | calloc gives the client a new block all of whose words read as zero; it does if the system gives what it is asked for |
| Client.Serve | malloc.c:3374-3878 | One request of a client: its record of blocks changes as the request says, and every word written reads back; a request that comes to less than 2 GB less a page fails only if MORECORE did not give what it was asked for |
| Client.Run | malloc.c:3374-4546 | After any run of malloc, calloc, free, realloc, of null too, memalign, independent allocations and writes from the first call on, the client's blocks are exactly those in use and hold what was written, and zero where they were cleared and not written since; and as long as MORECORE gives what it is asked for, no request fails that comes to less than 2 GB less a page |
| Client.HeldApart | malloc.c:2612-2863 | A held block overlaps no other chunk, whatever that is used for |
| Client.BlockResized | malloc.c:3998-4153 | realloc keeps the words that fit into the new size |
| Copying.CopiedIs | malloc.c:1784-1801 | Copying word by word between disjoint blocks moves exactly those words |
| Copying.MallocCopy | malloc.c:1784-1801 | The interleaved switch and loop moves n words for every n >= 1, and 8 for n = 0 |
| Copying.CopyPayload | malloc.c:4098-4123 | Both ways of copying move the whole old payload |
| Realloc.Settle | malloc.c:4132-4149 | The block gets the size asked for, or all of the space if the rest would be too small; the rest is freed |
| Realloc.Shrink | malloc.c:4047-4051 | Shrinking keeps the block in place with the contents that fit |
| Realloc.GrowIntoTop | malloc.c:4056-4064 | Growing into top keeps the contents and all other blocks |
| Realloc.GrowIntoNext | malloc.c:4066-4073 | Growing into the free chunk behind keeps the contents; what is too much goes back |
| Realloc.CopyThenFree | malloc.c:4091-4127 | The new block holds the old contents, and the old block is gone |
| Realloc.Move | malloc.c:4075-4129 | Moving, or joining with the new block if it lies right behind, preserves the contents; a failure changes nothing; the block becomes what malloc returns, or stays if that lies right behind it |
| Realloc.ReAlloc | malloc.c:3998-4153 | The block stays in place, without a call of MORECORE, if it is large enough, if it and top behind it hold the request and MINSIZE, or if it and the free chunk behind it hold the request; otherwise the result is that of malloc, except that a new block right behind is joined; on every path the first min(old, new) payload words survive and all other blocks are untouched; a null result leaves the old block intact |
| Memalign.PowerTest | malloc.c:4248-4253 | a & (a - 1) is zero exactly for powers of two |
| Memalign.AndMinus | malloc.c:4281-4282 | v & -a in machine words rounds down to a multiple of the power of two a |
| Memalign.AlignUpIs | malloc.c:4281-4282 | The masked sum is the next multiple of the alignment |
| Memalign.UsedIsLeast | malloc.c:4244-4253 | The alignment used is a power of two, at least 16 and at least the one asked for, and less than twice that unless it is 16 |
| Memalign.UsedIfPower | malloc.c:4244-4253 | A power of two of at least 16 is used as it is |
| Memalign.RoundAlignment | malloc.c:4244-4253 | The rounding loop computes that alignment |
| Memalign.LeaderFits | malloc.c:4271-4288 | The leader is a chunk of its own, shorter than the alignment plus MINSIZE, and what is behind it is aligned |
| Memalign.CutOff | malloc.c:4297-4300 | Cutting a block in two leaves both halves in use and every other payload alone |
| Memalign.DropLeader | malloc.c:4281-4306 | The leading space goes back; the aligned rest stays in use |
| Memalign.DropTail | malloc.c:4308-4318 | The spare room at the end goes back |
| Memalign.CarveAligned | malloc.c:4269-4321 | From a block as large as the worst case the aligned block is always cut, with room for nb bytes; from a smaller one either a smaller block is cut, or the stores go beyond it; which place, which size and whether the stores stay inside are determined by the block |
| Memalign.NeverReached | malloc.c:4248-4253 | An alignment above 2^31 is no power of two, and no doubling in words reaches it |
| Memalign.MemAlign | malloc.c:4224-4322 | A non-null result is a new block at the rounded-up alignment, everything else is as before, and it has room for the request if and only if the worst-case request did not wrap around; a null result means the worst-case request could not be served; the call never ends if and only if the alignment is above 2^31, and goes beyond its block only if the request wrapped around; the block is cut where the worst-case request was placed by malloc, and is what that serves |
| Memalign.WrappingInput | malloc.c:4263-4265 | For 2 GB less 8 bytes at an alignment of 2 GB the worst-case request wraps around to 16 bytes |
| Calloc.ZeroedIs | malloc.c:1766-1782 | Clearing n words clears exactly those |
| Calloc.MallocZero | malloc.c:1766-1782 | The interleaved switch and loop clears n words for every n >= 1, and 8 for n = 0 |
| Calloc.ClearPayload | malloc.c:4349-4376 | Both ways of clearing clear the whole payload |
| Calloc.ClearedInv | malloc.c:4349-4376 | Clearing words of a block keeps the invariant and all other payloads |
| Calloc.CAlloc | malloc.c:4329-4390 | A non-null result is a new block all of whose words are zero; it has room for all elements if and only if the product does not wrap around; whether there is one is decided as for malloc |
| Ialloc.AskedIsNeeded | malloc.c:4477-4499 | The total computed in words is what the elements and the array need if and only if that is less than the address space |
| Ialloc.WrappingSizes | malloc.c:4485-4499 | Two elements of 2 GB each: 16 bytes are asked for |
| Ialloc.ContentsSize | malloc.c:4485-4496 | The product or the loop, in words, is the sum of the padded sizes modulo the address space |
| Ialloc.PiecesAre | malloc.c:4530-4546 | Piece i is a block of its padded size right behind piece i - 1, and the last one takes what is left |
| Ialloc.PiecesFill | malloc.c:4530-4546 | The sizes of the pieces add up to the aggregate |
| Ialloc.SplitOut | malloc.c:4530-4546 | The loop's stores and pointers are those of the partition |
| Ialloc.Partition | malloc.c:4530-4546 | Every round keeps the invariant: one more block, and a smaller chunk still to be partitioned |
| Ialloc.Independent | malloc.c:4514-4546 | If the aggregate's in-use bit is set, the partition with or without its pointer array is a valid heap of adjacent blocks |
| Ring.RingUnique | malloc.c:2822-2836 | The words of memory decide the list of a header |
| Ialloc.DeniedEverywhere | malloc.c:2613-2646 | If a chunk on the list of a bin is followed by a chunk marked as behind a used one, no catalogue fits memory |
| Ialloc.BrokenTags | malloc.c:4530-4546 | If the chunk before the aggregate is free, stores inside the aggregate that set its bit leave memory of which no catalogue keeps the invariant |
| Ialloc.PartitionChunk | malloc.c:4521-4546 | The heap is valid afterwards if and only if the aggregate's in-use bit was set, and no catalogue fits memory if and only if it was clear; the payload of no piece is touched |
| Ialloc.ResultsAre | malloc.c:4530-4546 | Every pointer returned is a block in use of at least its padded size, and the next one lies right behind it |
| Ialloc.GetAggregate | malloc.c:4499-4514 | The aggregate's bit is set exactly unless a fastbin served the request with a chunk behind a free one; which block it is, is decided as for malloc |
| Ialloc.PieceCleared | malloc.c:4518-4546 | What was cleared before the partition is still zero in every piece |
| Ialloc.IAlloc | malloc.c:4447-4546 | The result is n adjacent blocks of at least the padded sizes, each in use by itself and all zero if asked for; the heap is valid if and only if the fastbins were consolidated first or no fastbin serves the total with a chunk whose bit is clear, and otherwise no catalogue fits memory; a block too small for the elements is got if and only if their sizes add up past the address space; whether there is one, and where, is decided as for malloc |
| Ialloc.RecycleBehindFree | malloc.c:4521-4546 | After blocks of 200 and 8 bytes were allocated and freed, independent_calloc of one element of 8 bytes leaves memory that no catalogue fits |
| Mallinfo.TotalByClass | malloc.c:4650-4704 | The bytes of all chunks are the sum over their uses |
| Mallinfo.Conservation | malloc.c:4650-4704 | Bytes obtained from the system are in use, on fastbins, binned, top, or lost to fenceposts, and nothing else |
| Mallinfo.CountFast | malloc.c:4671-4680 | Walking the chains counts each fast chunk once |
| Mallinfo.CountBinned | malloc.c:4684-4691 | Walking the lists counts each binned chunk once |
| Mallinfo.MallInfo | malloc.c:4650-4704 | fordblks is exactly the free bytes and uordblks exactly the bytes in use, fenceposts included |
| Segments.SegView | udi/common/udi_buf.c:1695-1816 | Segment i is the part of the flat view between the lengths before and after it |
| Segments.SplitSegment | udi/common/udi_buf.c:1098-1121 | Cutting a segment anywhere, even at its ends, leaves the flat bytes as they were |
| Segments.Shortened | udi/common/udi_buf.c:776-812 | Moving a segment's start or end deletes those bytes of the view |
| Segments.StoreInSegment | udi/common/udi_buf.c:602-655 | A store into one segment overwrites that part of the view and no other |
| UdiBuf.CountedInsert | udi/common/udi_buf.c:1098-1143 | Each block's reference count stays the number of segments that point into it |
| UdiBuf.CutInTwo | udi/common/udi_buf.c:1098-1121 | The cut of an insertion keeps the list well formed, unshared, counted, and its bytes the same |
| UdiBuf.InsertedRope | udi/common/udi_buf.c:1123-1155 | New memory in a new segment inserts its bytes into the view |
| UdiBuf.Buffer.Init | udi/common/udi_buf.c:681-742 | A new buffer holds exactly the bytes it is initialised from, in one segment that is NULL without bytes |
| UdiBuf.Buffer.CalcInsert | udi/common/udi_buf.c:429-467 | A second segment is provided for exactly if the offset lies inside a segment |
| UdiBuf.Buffer.FindInsert | udi/common/udi_buf.c:1068-1077 | The walk ends at the segment that holds the offset, and at a boundary if there is one |
| UdiBuf.Buffer.Insert | udi/common/udi_buf.c:1029-1168 | Inserting at any offset splices the flat bytes, and adds exactly one segment, or cuts one in two besides |
| UdiBuf.Buffer.DropBytes | udi/common/udi_buf.c:776-812 | Clipping, emptying and advancing segments deletes exactly the range; a segment emptied on the way is NULL |
| UdiBuf.Buffer.Delete | udi/common/udi_buf.c:743-813 | Deleting any range splices the flat bytes; zero-length leftovers do no harm |
| UdiBuf.Buffer.Overwrite | udi/common/udi_buf.c:602-655 | Overwriting across segments replaces exactly the range, and stops at the end of the source; no other byte of memory changes |
| UdiBuf.Buffer.Write | udi/common/udi_buf.c:1219-1350 | One call is one splice of the flat bytes, and the lengths still sum to the buffer's size; the list of segments is the old one with one segment added, with the range cut out, or as it was, and only an overwrite changes memory that is there |
| UdiBuf.Run | udi/common/udi_buf.c:1219-1350 | Any run of initialise, insert, delete and overwrite equals the same splices of a flat sequence |
| UdiBuf.Buffer.Read | udi/common/udi_buf.c:1695-1816 | For any buf_size, reading gives the flat view with 0xCA past the physical end, and never leaves the list |
| UdiBuf.Buffer.Compact | udi/common/udi_buf.c:2047-2126 | Compaction gives one fully backed segment, which is not NULL, with the same flat view |
| UdiBuf.Gather | udi/common/udi_buf.c:2047-2126 | The copying loop collects the padded flat view |
| Checksum.FlatSumMod | udi/common/udi_buf.c:2228-2317 | The flat sum is a 16-bit number congruent to the sum of the words modulo 0xffff (section 1 of RFC 1071) |
| Checksum.TagCompute | udi/common/udi_buf.c:2228-2317 | The loop over one piece feeds it to the running state within 16 bits, except that for no bytes at NULL its end test wraps around and it runs away |
| Checksum.SumsTheStream | udi/common/udi_buf.c:2366-2498 | For every split, the computation is the flat checksum of its stream, in which a lone byte brings the pending one back |
| Checksum.StreamIsFlat | udi/common/udi_buf.c:2366-2498 | The stream is the flat byte sequence if and only if no one-byte piece meets a pending byte |
| Checksum.ChecksumIsFlat | udi/common/udi_buf.c:2366-2498 | For any split without lone bytes the segment-wise checksum is the flat one |
| Checksum.LoneByteBreaks | udi/common/udi_buf.c:2228-2317 | Bytes 1 and 2 in segments of their own sum to 0x0202 and not to 0x0102 |
| LoneBytes.UnitSum | udi/common/udi_buf.c:2228-2317 | A single byte 1 among zeros counts as the high or the low byte of its word |
| LoneBytes.WrongContents | udi/common/udi_buf.c:2366-2498 | Every split with a lone byte has contents whose segment-wise checksum is not the flat one |
| LoneBytes.FlatForAllContents | udi/common/udi_buf.c:2366-2498 | The segment-wise checksum is the flat one for all contents of a split if and only if the split has no lone byte |
| Checksum.FindFirst | udi/common/udi_buf.c:2405-2421 | The walk ends at the first segment that is not empty, or at once for a range from 0; it never ends if a later range meets only empty segments |
| Checksum.CutFlat | udi/common/udi_buf.c:2423-2470 | The pieces taken from segment after segment are the bytes of the view, without gap or overlap |
| Checksum.BufTagCompute | udi/common/udi_buf.c:2366-2498 | It reads only the range, and ends, if and only if the walk finds the range and no segment visited is NULL; the result then is the ones' complement of the sum over the range as the segments cut it up, and that of the flat padded range unless a lone byte meets a pending one |
| Checksum.DeletedSegmentVisited | udi/common/udi_buf.c:2228-2317 | Bytes 1, 2 and 3, 4 in two segments, the first three deleted: the checksum of what is left visits a NULL segment |
| Checksum.DeletedSegmentRunsAway | udi/common/udi_buf.c:2228-2317 | Initialising, inserting and deleting reach that buffer, and its checksum runs away |
| Checksum.ReservedVisited | udi/common/udi_buf.c:2228-2317 | Every range of a buffer without memory visits a NULL segment |
| Checksum.ReservedRunsAway | udi/common/udi_buf.c:2228-2317 | So its checksum runs away |
| Checksum.LaterSegmentNotFound | udi/common/udi_buf.c:2405-2450 | A range in the second of two segments is not found |
| Checksum.LaterSegmentMissed | udi/common/udi_buf.c:2405-2450 | Initialising and inserting reach that buffer, and the range is not summed |
| CbPool.Pool.Send | udi/common/udi_MA_util.c:169-178 | A call in progress is recorded and nothing else changes |
| CbPool.Pool.Check | udi/common/udi_MA_util.c:176-184 | A caller that saw an empty pool goes on to allocate, any other to the queue; nothing else changes |
| CbPool.Pool.AddCb | udi/common/udi_MA_util.c:248-259 | A new block becomes the head of the idle ones, or nothing is added if there is no memory; no block is in use or operation queued by it |
| CbPool.Pool.Take | udi/common/udi_MA_util.c:186-197 | Under the lock the operation is executed with the block at the head if one idles, and joins the tail of the queue otherwise |
| CbPool.Pool.Return | udi/common/udi_MA_util.c:200-228 | A returned pool block serves the oldest waiting operation, or becomes the last of the idle ones; a foreign block changes nothing |
| CbPool.Pool.NoneWaitsInVain | udi/common/udi_MA_util.c:169-228 | With no sender in mid-call, no operation waits while a block idles |
| CbPool.Pool.AllExecutedOnce | udi/common/udi_MA_util.c:169-228 | When nothing is in progress or queued, every operation sent was executed exactly once, queued ones in order |
| CbPool.Pool.constructor | udi/common/udi_MA.c:276-281 | Any idle blocks that prime the pool give a valid one |
| CbPool.TakeStep | udi/common/udi_MA_util.c:169-259 | A step of any thread is taken if the program could take it next, with its whole effect, and otherwise changes nothing |
| CbPool.Interleave | udi/common/udi_MA_util.c:169-259 | From a primed pool, every interleaving of senders and returners keeps all of this, loses no operation sent, and keeps the primed blocks in the pool's custody; the state is that of the steps one after the other |
| Unbind.Unbinder.constructor | udi/common/udi_MA.c:1673-1704 | What is to come is the recursive post-order walk of the tree |
| Unbind.Unbinder.Step1 | udi/common/udi_MA.c:1706-1739 | Descending to the first child neither adds nor loses an event |
| Unbind.Unbinder.Step2 | udi/common/udi_MA.c:1742-1764 | UNBIND is sent exactly if the node has a driver |
| Unbind.Unbinder.Step3 | udi/common/udi_MA.c:1766-1777 | The acknowledgement of UNBIND is followed by the request for final cleanup |
| Unbind.Unbinder.Step4 | udi/common/udi_MA.c:1779-1796 | Cleanup done, the regions are next |
| Unbind.Unbinder.Step5 | udi/common/udi_MA.c:1799-1829 | One region is destroyed per call-back, until none is left |
| Unbind.Unbinder.FinishChild | udi/common/udi_MA.c:1832-1879 | A finished child leaves its parent and memory; its sibling, in the same context, or its parent is next |
| Unbind.Unbinder.FinishRoot | udi/common/udi_MA.c:1832-1879 | The root's end runs the caller's call-back and frees the root's context |
| Unbind.Unbinder.Unwind | udi/common/udi_MA.c:1870-1873 | The context of a last child is freed when the call that goes on with its parent returns, however much later |
| Unbind.Unbinder.Step6 | udi/common/udi_MA.c:1832-1879 | Each end of a node makes progress; only that node disappears |
| Unbind.UnbindTree | udi/common/udi_MA.c:1673-1879 | For every finite tree the unbind terminates, what happens is the post-order walk, only the root can be left, without a driver, and of the contexts made every one has been freed and none misused |
| Unbind.FreedOnce | udi/common/udi_MA.c:1673-1879 | Such a context was allocated once and freed once, and every use of it lies between the two |
| Unbind.HeldSince | udi/common/udi_MA.c:1673-1879 | A context still held was allocated once and only used since |
| Unbind.EachOnce | udi/common/udi_MA.c:1673-1879 | One UNBIND and one final cleanup per bound node and none for others, one removal per node, one call-back |
| Unbind.ChildrenFirst | udi/common/udi_MA.c:1706-1740 | Before any event of a node, every descendant has been removed, and before that, if it was bound, asked to unbind and then to clean up |
| AllocDaemon.NextValid | udi/common/udi_alloc.c:106-350 | Every step keeps each control block in exactly one place, the one its state names |
| AllocDaemon.RunValid | udi/common/udi_alloc.c:106-350 | So does every interleaving |
| AllocDaemon.AtMostOnce | udi/common/udi_alloc.c:141-350 | A request is completed at most once, its call-back runs at most once and only after completion, and a cancelled one has neither |
| AllocDaemon.CancelledForGood | udi/common/udi_alloc.c:551-610 | A request cancelled while pending is never completed, however the run goes on |
| AllocDaemon.Environment.Mark | udi/common/udi_alloc.c:106-119 | The driver gives up its block before the lock is taken |
| AllocDaemon.Environment.Link | udi/common/udi_alloc.c:121-127 | Under the lock the block joins the tail of the list; and nothing else changes |
| AllocDaemon.Environment.TakeHead | udi/common/udi_alloc.c:149-168 | Under the lock the daemon takes the head of the list, if there is one, and marks it busy |
| AllocDaemon.Environment.EndWork | udi/common/udi_alloc.c:170-350 | After the blocking allocation, whatever has happened meanwhile, the request is completed, or put back at the tail if memory is short |
| AllocDaemon.Environment.CallBack | udi/common/udi_alloc.c:337-347 | The region returns the block to its driver with the request delivered |
| AllocDaemon.Environment.Unlink | udi/common/udi_alloc.c:559-581 | A pending request is taken off the list wherever it is |
| AllocDaemon.Environment.Reclaim | udi/common/udi_alloc.c:582-607 | After cancellation the driver has its idle block again |
| AllocDaemon.QueueLaw | udi/common/udi_alloc.c:106-350 | In every run the requests the daemon has begun, in order, followed by those on the list are those that were queued, in order, without the ones cancelled: first come, first served, a request put back queues again |
| AllocDaemon.Play | udi/common/udi_alloc.c:106-610 | However drivers, the daemon, regions and cancellers take turns, between the daemon's two parts too, what the program does is a run of the steps: no request is completed or called back twice, and none that was cancelled; the daemon has begun requests in the order in which they were queued |

## Left out

- Arena.MallocState.MoreCore: only the contract of MORECORE (`malloc.c:4803-4847`) is used; the body in the
  model refuses every request. The kernel's own `kmorecore` returns -1 for 0 (`mm.c:66-70`), which that
  contract does not allow. A grant that continues top is assumed to cover the request, as the code itself
  assumes; `TOP_PAD` is 0 and the page size 4096. The contracts of all callers hold for every
  answer, and the ghost field `answers` records what was asked for and what was given.
- Arena.MallocState.MAlloc: among best fits of one size does not say which is taken;
  `Arena.MallocState.SearchBins` does, by their order in the bin, and `Arena.MallocState.PlaceInBin` says what order
  filing gives.
- Flag bits of `max_fast`: two boolean fields in the model; chunk sizes are multiples of 8, so the bits
  change no comparison and no fastbin index.
- `mallopt`: with `M_MXFAST` 0 the index of the last fastbin is -1; `max_fast` keeps its default here.
- The order of two stores to the same word, or of a store before a read that it cannot affect, is not
  always the program's.
- mmap, trim, contiguous MORECORE, the statistics of maximal sizes, the public wrappers and their locks:
  configured out, or calls into the system.
- Memalign.MemAlign: what is stored beyond the block after a request that wrapped around is not modelled.
- Client.Serve: skips requests of memalign, calloc and independent allocation that wrap around, and the
  independent allocations after which no heap is left; these are into an array of the client's own.
- Client.Run: skips the same requests.
- Ialloc.IAlloc: starts at one element; what is stored beyond the block after the sizes wrapped around is not
  modelled.
- Realloc.ReAlloc: describes contents word by word; the model has no bytes inside a word.
- UdiBuf.Buffer.CalcInsert: leaves out partly virtual buffers, whose missing bytes come as memory that is
  not initialised.
- UdiBuf.Buffer.Insert: leaves out partly virtual buffers; physical memory is one growing byte sequence per
  buffer, so freeing and reusing a memory block is not modelled; reference counts are.
- UdiBuf.Buffer.Delete: leaves out partly virtual buffers.
- UdiBuf.Buffer.Overwrite: leaves out partly virtual buffers.
- UdiBuf.Buffer.Write: leaves out replacing a range by one of another length, which does not refine sequence
  replacement, and partly virtual buffers; copying from another buffer, tags, DMA and external memory are not
  part of this model.
- UdiBuf.Run: skips the calls that `UdiBuf.Buffer.Write` leaves out.
- Checksum.BufTagCompute: memory and buffer together are smaller than the address space; reading outside the
  segment and walking for ever are not told apart.
- Unbind.Unbinder.Step4: leaves out the PIO abort, after which the code goes on in the same place.
- Unbind.UnbindTree: leaves out channel closing and the driver's own node list; contexts are numbered as they
  are allocated, where memory would reuse addresses.
- CbPool.Pool.AddCb: the allocation that supplies the block is a parameter.
- AllocDaemon.Environment.EndWork: whether memory is available is a parameter; the failed and retry states,
  immediate call-backs and timers are not modelled, and a region may run its call-backs in any order.
- AllocDaemon.Environment.Unlink: leaves out cancelling after the daemon has begun.
- Device enumeration and driver matching in `udi_MA.c`, property parsing, channels, and the region scheduler
  are not part of this model.
- Device drivers, the screen, ports, descriptor tables and the page allocator are not part of this model.
