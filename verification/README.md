# Verified model of the teaching kernel

This project models the core of the x86-64 teaching kernel as it stands in `week5/syscall`, with the
buddy client of `week2` and the producer-consumer monitor of `week4`, and proves what its parts are for.

- `Buddy.dfy`, `BuddyAllocator.dfy`, `BuddyClient.dfy`: the buddy page allocator. The page descriptors
  with their stale tags are an array; the merge decisions read only tags, and are proved right by an
  invariant that says which descriptors can be block heads.
- `Paging.dfy`, `MapLoop.dfy`, `LargeLeaves.dfy`, `EntryFlags.dfy`, `KernelMap.dfy`: four-level page tables
  (section 4.5 of the Intel SDM, Volume 3A), the address walk and the boot mapping, 64-bit wrap included.
- `UserTree.dfy`, `UserSweep.dfy`, `UserMap.dfy`, `UserFrames.dfy`, `Access.dfy`: user mappings over buddy
  blocks, what ownership of blocks means for translation, and who may use and write which address.
- `UnmapRange.dfy`, `UnmapBorder.dfy`, `UnmapFilled.dfy`, `UnmapLost.dfy`, `UnmapPair.dfy`, `UnmapExact.dfy`:
  unmapping, and exactly when munmap is right.
- `Vmas.dfy`, `Regions.dfy`, `Rollback.dfy`, `ByteCopy.dfy`, `Mm.dfy`, `MmCopy.dfy`, `MmRun.dfy`,
  `MmFails.dfy`: address spaces, their region lists, copying between them and their life from creation to release.
- `Slab.dfy`, `SlabSteps.dfy`, `SlabCache.dfy`: the object caches on top of the buddy allocator.
- `Threads.dfy`, `ThreadSteps.dfy`, `ThreadLocks.dfy`, `ThreadRuns.dfy`, `ThreadTheorems.dfy`,
  `ThreadEffects.dfy`, `ThreadPromises.dfy`, `Kernel.dfy`: scheduler, joining, mutex and condition variable as a
  step system over all interleavings, and a class whose methods are the code of the steps.
- `Intervals.dfy`, `Balloc.dfy`, `Boot.dfy`: the bootstrap range list (memory map as in section 3.3 of
  the Multiboot Specification) and the setup of the zones from it.
- `Ramfs.dfy`, `RamfsFiles.dfy`, `Initramfs.dfy`, `Cpio.dfy`: page-list files, and the archive reader that
  fills them ("New ASCII Format" of cpio(5)).
- `Stdlib.dfy`, `Ctype.dfy`: printing and parsing numbers.
- `Monitor.dfy`: the one-slot monitor. `LinkedList.dfy`: the circular lists on the heap. `Bits.dfy`: powers
  of two, alignment, masks.

The code that changes state in place is a class or a method; its contract gives the new state as a
function of the old one, and the lemmas speak about these functions. Elsewhere the circular lists are
sequences; `LinkedList.dfy` shows that list.c on the heap does to rings what is done to sequences there.

Six places where the code does less than one might expect are kept as they are, with the exact
condition under which it does what it should:

- the end pointer of strtoul after printed text is right if and only if the text is not "0" in base 8
  (`Stdlib.PrintParse`);
- the monitor with its one condition variable and loops around the waits never has every thread asleep if
  and only if there is one producer and one consumer (`Monitor.NeverStuck`);
- `__pt_unmap` does not advance over absent entries and leaves; munmap therefore keeps regions and tables in
  agreement if and only if the tables are filled up to the end of the gap: every whole entry of the gap that
  lies, in the same table, before an entry that the end cuts holds a table (`UnmapExact.ExactlyFilled`); and
  whatever the space, if and only if there is no such whole entry (`UnmapExact.ExactlyTidy`);
- the rollback of mmap takes `begin` instead of `end` from the region that follows; regions and tables agree
  again if and only if there is none (`Mm.Mm.Mmap`, `Rollback.RollbackDone`), and with one there they come
  apart (`MmFails.FailedMmap`, `MmFails.MmapBreaks`);
- user_flags tests a permission with the number of its bit instead of the bit; whether a page can be written is
  what its region permits if and only if the region permits both reading and writing or neither
  (`Access.RegionRights`, `Access.WriteRight`);
- the search of the bootstrap allocator returns its limit for failure, so it finds a free run if and only if
  there is one in a range that begins below the limit and the least one does not start at the limit
  (`Balloc.AllocLeast`, `Balloc.LimitMissed`).

A `while (1)` after a failure is a result `hung` or `Halted`. What an allocator outside a module can still
give is a parameter (`node`, `nodes`, `room`) or a set (`early`).

## Model

| member | source | states |
|---|---|---|
| `BuddyZone.TagTruth` | week5/syscall/src/buddy.c:244-254 | whenever a held block is being returned, the test "free tag set and order equal" on its buddy descriptor holds exactly when the buddy really is a block on the list of that order: stale tags and orders left by earlier merges and splits are never read as a block head |
| `BuddyZone.Nested` | week5/syscall/src/buddy.c:214-267 | two naturally aligned blocks that share a page are nested: the larger contains the smaller, and equal orders mean equal blocks |
| `BuddyZone.TakeKeeps` | week5/syscall/src/buddy.c:208-212 | taking the head of a list keeps the zone invariant (free and held blocks partition the pages, each free block on exactly the list of its order, no two free buddies) and moves exactly its pages out of the free set |
| `BuddyZone.SplitKeeps` | week5/syscall/src/buddy.c:214-223 | splitting a held block off its right half keeps the zone invariant; the half becomes free and nothing else changes |
| `BuddyZone.MergeKeeps` | week5/syscall/src/buddy.c:256-267 | uniting a block being returned with its free buddy gives a held whole block of the next order and keeps the invariant although the absorbed tag stays set |
| `BuddyZone.ReturnKeeps` | week5/syscall/src/buddy.c:270-273 | putting back a block whose buddy is not on the list of its order restores the full invariant and frees exactly its pages |
| `BuddyZone.CutBuddyBusy` | week5/syscall/src/buddy.c:134-144 | a block cut by the order rule of the range loop never has a free buddy, so setup leaves nothing unmerged |
| `BuddyZone.CutKeeps` | week5/syscall/src/buddy.c:134-153 | one turn of the range loop keeps the invariant and hands over exactly the pages of the block |
| `BuddyZone.HalvesMerged` | week5/syscall/src/buddy.c:240-268 | two free halves of one natural block always lie in one larger free block |
| `BuddyZone.FullRun` | week5/syscall/src/buddy.c:240-274 | every naturally aligned run of 2^k free pages lies inside one listed block of order k or more |
| `BuddyZone.Canonical` | week5/syscall/src/buddy.c:113-154 | a block is on a list if and only if it is a maximal natural run of free pages: the lists are a function of the free-page set |
| `BuddyAllocator.Confluence` | week5/syscall/src/buddy.c:198-274 | two reachable states with the same free pages have the same blocks on every list, whatever the history |
| `BuddyAllocator.AllocThenFree` | week5/syscall/src/buddy.c:198-274 | allocating a block and freeing it again gives back every order list element for element |
| `BuddyAllocator.SearchComplete` | week5/syscall/src/buddy.c:198-206 | the search over the order lists finds a block if and only if some naturally aligned run of 2^k pages is free |
| `BuddyAllocator.ZoneAllocator.constructor` | week5/syscall/src/buddy.c:60-83 | a new zone satisfies the invariant with empty lists (descriptors zeroed) |
| `BuddyAllocator.ZoneAllocator.FreeRange` | week5/syscall/src/buddy.c:127-153 | handing over a range of new pages adds exactly these pages to the free set and keeps the invariant, held blocks untouched |
| `BuddyAllocator.ZoneAllocator.Alloc` | week5/syscall/src/buddy.c:198-226 | fails exactly when no aligned run of 2^k pages is free, then changing nothing; otherwise the lists are those of the specification, the block was entirely free, and exactly its pages become held |
| `BuddyAllocator.ZoneAllocator.FreeBlock` | week5/syscall/src/buddy.c:240-274 | decides every merge from the tags alone, yet ends with the lists that merging by list membership gives; exactly the pages of the block become free |
| `BuddyClient.NoPageTwice` | week5/syscall/src/buddy.c:198-274 | no page lies in two held blocks, nor in a held and a free one |
| `BuddyClient.PagesOfSame` | week2/alloc/buddy-allocator/src/main.c:52-63 | the pages of a list of blocks do not depend on the order of the list |
| `BuddyClient.AllocateAll` | week2/alloc/buddy-allocator/src/main.c:24-38 | terminates; the blocks taken are distinct and disjoint, and afterwards no aligned run of that order is free |
| `BuddyClient.ReleaseAll` | week2/alloc/buddy-allocator/src/main.c:52-63 | gives back exactly the listed blocks, in list order |
| `BuddyClient.ExhaustAndRefill` | week2/alloc/buddy-allocator/src/main.c:65-76 | exhausting an order and giving the blocks back in any order restores the block set of every list, the free pages and the held blocks |
| `Paging.PtePacking` | week5/syscall/src/paging.c:45-48 | or-ing flags below bit 12 into a page-aligned address and masking with the physical mask gives the address back, and the flags too |
| `Paging.PtAddr` | week5/syscall/src/paging.c:36-55 | returns zero exactly where the recursive walk finds nothing (or physical zero), otherwise the physical address the walk of a 4-level table gives; the offset mask built by shifting is right at every leaf level |
| `Paging.AddrParts` | week5/syscall/src/paging.c:38-54 | or-ing the low bits of an address into an aligned leaf address adds them, at each leaf size |
| `Paging.WalkLocal` | week5/syscall/src/paging.c:42-53 | a translation depends only on the tables placed over its address |
| `Paging.LeafStep` | week5/syscall/src/paging.c:245-251 | writing or clearing one leaf entry keeps the table tree and changes the translation of no address outside that entry |
| `Paging.LeafWalk` | week5/syscall/src/paging.c:42-54 | inside the written entry the walk finds the leaf address plus offset |
| `Paging.AddTableStep` | week5/syscall/src/paging.c:253-254 | hanging a zeroed table changes no translation |
| `Paging.ChildStep` | week5/syscall/src/paging.c:257-258 | what the recursive call changed under a child table is all that changed under its parent |
| `Paging.ChunkIs` | week5/syscall/src/paging.c:234-236 | `MIN(size, ((virt + esize) & ~emask) - virt)` in 64-bit arithmetic is the distance to the end of the entry or the rest of the range, also where virt + esize wraps to 0 |
| `Paging.Advance` | week5/syscall/src/paging.c:230-262 | stepping by one chunk stays inside one entry, and the next chunk starts at the next entry below the loop bound |
| `MapLoop.LoopWords` | week5/syscall/src/paging.c:230-236 | the loop guard `i != to` says exactly that bytes are left, also for the range that ends at 2^64 |
| `MapLoop.LoopLeaf` | week5/syscall/src/paging.c:245-250 | the leaf branch extends the mapped prefix by a whole entry |
| `MapLoop.LoopTable` | week5/syscall/src/paging.c:253-255 | the table branch keeps the mapped prefix as it is |
| `MapLoop.LoopChild` | week5/syscall/src/paging.c:257-261 | a chunk mapped by the recursive call extends the mapped prefix of the parent |
| `LargeLeaves.SpareTable` | week5/syscall/src/paging.c:240-255 | a table is hung under an entry only where no large leaf fits the chunk or none is to be had: it covers more than the range, or lies at an address that such a leaf cannot have |
| `LargeLeaves.SpareChild` | week5/syscall/src/paging.c:230-262 | the tables that the recursive call hangs are such tables for the whole range, since between two chunks the loop stands on an entry border |
| `EntryFlags.WrittenLeaf` | week5/syscall/src/paging.c:103-112 | writing a leaf puts its flags into that entry and leaves every other entry as it was |
| `EntryFlags.WrittenTable` | week5/syscall/src/paging.c:118-122 | a new table has the flags of a table, and no entry of its own is present |
| `KernelMap.KernelTables.EarlyAlloc` | week5/syscall/src/paging.c:186-208 | hands out a zeroed early frame that is no table yet, or hangs exactly when none is left |
| `KernelMap.KernelTables.MapTo` | week5/syscall/src/paging.c:220-263 | maps an unmapped page-aligned range linearly at every level, leaving every other address as it was; a table is hung only where no large leaf fits, so the range takes as few tables as the alignments allow; new leaves have the flags asked for, new tables those of a table; stops only when no early frame is left |
| `KernelMap.KernelTables.MapEntry` | week5/syscall/src/paging.c:240-258 | one entry of that loop: the mapped prefix grows by exactly one chunk |
| `KernelMap.KernelTables.PtMapTo` | week5/syscall/src/paging.c:265-269 | afterwards every address of the range translates to phys + offset, and every other address as before |
| `KernelMap.KernelTables.PagingSetup` | week5/syscall/src/paging.c:272-290 | all physical memory appears at HIGHER_BASE and its first two gigabytes again at VIRTUAL_BASE, where the range ends at 2^64; the addresses between stay unmapped; below the root and third-level tables there is a table only where the end of memory cuts an entry; every leaf is writable and for the kernel alone |
| `UserTree.AddLeaf` | week5/syscall/src/paging.c:103-112 | a free block put into an absent entry keeps the ownership invariant: every leaf and table is backed by its own held block |
| `UserTree.AddTableUser` | week5/syscall/src/paging.c:118-122 | a free page hung as a table keeps the ownership invariant |
| `UserTree.ClearLeaf` | week5/syscall/src/paging.c:160-164 | clearing a leaf gives up exactly its block, at the order it was allocated with |
| `UserTree.DropUser` | week5/syscall/src/paging.c:171-174 | unhanging an emptied table gives up exactly its page |
| `UserTree.NothingLeft` | week5/syscall/src/paging.c:140-178 | once the root entries of the user half are gone no table but the root is left |
| `UnmapRange.WholeChunk` | week5/syscall/src/paging.c:148-151 | on an entry border the next chunk is one whole entry, however many absent entries and leaves were skipped without advancing, and the child is swept from its first entry to its last |
| `UnmapRange.LoopExact` | week5/syscall/src/paging.c:148-177 | so the loop empties exactly the entries it runs over, with everything below them, and no other address loses its translation |
| `UnmapRange.LoopFades` | week5/syscall/src/paging.c:140-178 | over any range entries are only cleared and tables only go away |
| `UnmapRange.DueNext` | week5/syscall/src/paging.c:151-176 | over any range a chunk lies in one table of the level below and the counters, though they may lag behind the entries, never run out before the last entry; a chunk as large as an entry starts on its border, so a table that is freed has been swept from end to end |
| `UnmapBorder.BorderExact` | week5/syscall/src/paging.c:140-178 | over a range that ends on an entry border of its table and whose start tables lead to, exactly the range is unmapped |
| `UnmapBorder.LedAnchored` | week5/syscall/src/paging.c:148-169 | tables do lead to a start that is itself translated, or follows a translated address, and that no leaf reaches over |
| `UnmapFilled.FilledExact` | week5/syscall/src/paging.c:140-178 | over filled tables exactly the range is unmapped; filled: down to the level where the end is an entry border, the entry it cuts and every whole entry of the range before that one in its table hold tables |
| `UnmapLost.Sink` | week5/syscall/src/paging.c:148-176 | once the counters lag behind by an entry, because a whole entry was absent or a leaf, the entry that the end cuts is taken for a whole one and its table dropped |
| `UnmapLost.LostEnd` | week5/syscall/src/paging.c:140-178 | over tables that are not filled the address at the end of the range is unmapped too, whatever else the tables hold |
| `UnmapExact.ExactlyFilled` | week5/syscall/src/mm.c:129-181 | for every space as it can be (tables and pages on blocks held from a zone, regions and tables in agreement) and every call that is not refused: they agree afterwards if and only if the tables are filled up to the end of the gap, and then no address outside the range is touched |
| `UnmapExact.TidyFilled` | week5/syscall/src/paging.c:140-178 | a tidy range, one with no whole entry before the entry that its end cuts, is filled over all tables that lead to its end |
| `UnmapPair.PairLives` | week5/syscall/src/mm.c:193-268 | two pages anywhere in the user half, on frames of their own and with tables of their own from a zone of ten held pages, are such a space |
| `UnmapExact.PairBreaks` | week5/syscall/src/mm.c:129-181 | for every gap that is not tidy and every call inside it: two such pages around the gap are a space that munmap does not refuse and that has lost the second page afterwards |
| `UnmapExact.ExactlyTidy` | week5/syscall/src/mm.c:129-181 | for every page-aligned gap of the user half: in every space as it can be and for every call that leads to this gap, regions and tables agree afterwards and no address outside the range is touched, if and only if the gap is tidy |
| `UnmapExact.MunmapBreaks` | week5/syscall/src/mm.c:129-181 | one such call: a page before 2M and a page at 4M + 3 pages; munmap(4M, 4M + 3 pages) unmaps the second |
| `UserSweep.SweptLeaf` | week5/syscall/src/paging.c:160-164 | the leaf branch: the entry empty, its block no longer held, the ownership of all other blocks kept |
| `UserSweep.SweptTable` | week5/syscall/src/paging.c:166-176 | the table branch: the child emptied, its page given up, its entry cleared, all other ownership kept |
| `UserMap.LeafAddress` | week5/syscall/src/paging.c:104-109 | the address of a buddy block of a leaf order is aligned to what the leaf covers |
| `UserMap.UserTables.BuddyAlloc` | week5/syscall/src/buddy.c:299-311 | zero exactly when no aligned free run exists; otherwise the address of a block that was free and is now held |
| `UserMap.UserTables.HangTable` | week5/syscall/src/paging.c:118-123 | a zeroed page hung under an absent entry; hangs only when the zone has no page left |
| `UserMap.UserTables.MapRange` | week5/syscall/src/paging.c:78-133 | backs every page of the range with frames of its own; a table stands where one large leaf could only if no aligned run long enough for that leaf is free; new leaves have the flags asked for; other translations, other spaces, the kernel half and blocks held by others are untouched; fails only when no page at all is free, and then at once, changing nothing, where the tables over its start are all there |
| `UserMap.UserTables.MapEntry` | week5/syscall/src/paging.c:97-130 | one entry of that loop, with the fallback from a large leaf to a table |
| `UserMap.UserTables.FreeLeaf` | week5/syscall/src/paging.c:160-164 | the leaf goes back at the order it was allocated with |
| `UserMap.UserTables.FreeTable` | week5/syscall/src/paging.c:171-174 | the emptied child table is freed once and unhung |
| `UserMap.UserTables.Unmap` | week5/syscall/src/paging.c:140-178 | over any range inside a table, whatever the tables hold: the tables are those of the loop on the tables alone, they are still a tree in which every leaf and table has a block of its own, every leaf and table that went is given back exactly once, and all other blocks, tables and spaces are as they were; an even range leaves its entries empty |
| `UserMap.UserTables.UnmapEntry` | week5/syscall/src/paging.c:149-176 | one entry of that loop, and by how much the counters advance |
| `UserMap.UserTables.CreateRoot` | week5/syscall/src/mm.c:23-40 | the new root has an empty user half below the copied kernel entries and holds one page; zero exactly when no page is free |
| `UserMap.UserTables.FreeRoot` | week5/syscall/src/mm.c:46-49 | freeing an emptied root gives up the last block of the space and only that |
| `UserFrames.WalkLeaf` | week5/syscall/src/paging.c:36-55 | a translated address is translated by one leaf entry, which translates every address of its entry |
| `UserFrames.FrameHeld` | week5/syscall/src/paging.c:103-112 | the frame behind a user address is never free and never a page table of the space |
| `UserFrames.FramesApart` | week5/syscall/src/paging.c:78-133 | two user pages of one space never share a frame |
| `UserFrames.SpacesApart` | week5/syscall/src/paging.c:78-133 | two spaces that hold different blocks never share a frame |
| `UserFrames.PageOffset` | week5/syscall/src/paging.c:48-54 | inside a page translation is by offset |
| `UserFrames.SpaceSame` | week5/syscall/src/mm.c:15-51 | a space whose tables were not touched and whose blocks are still held translates as before |
| `Vmas.FindGap` | week5/syscall/src/mm.c:208-220 | returns none exactly when a region overlaps the range, otherwise the one place that keeps the list sorted |
| `Vmas.InsertSorted` | week5/syscall/src/mm.c:263-266 | inserting there keeps the list sorted and disjoint |
| `Vmas.InsertMapped` | week5/syscall/src/mm.c:263-266 | the mapped addresses become the old ones and the new range, which were disjoint |
| `Vmas.FindCut` | week5/syscall/src/mm.c:131-153 | returns none exactly when a region straddles an end of the range; otherwise the first region that ends above the start and the first that begins at the end or above |
| `Vmas.CutKeeps` | week5/syscall/src/mm.c:157-180 | where none straddles exactly the regions inside the range go, the list stays in order, exactly the range is no longer mapped, and the widened gap handed to pt_unmap contains the range and nothing mapped |
| `Vmas.CutAll` | week5/syscall/src/mm.c:48-48 | over the whole user half no region straddles, the list becomes empty and the gap is everything |
| `Mm.Create` | week5/syscall/src/mm.c:15-43 | none exactly when no page is free; otherwise a fresh space that maps nothing and holds one new page |
| `Mm.Mm.constructor` | week5/syscall/src/mm.c:22-22 | an emptied root with no regions is a space whose translation agrees with its (empty) region list |
| `Mm.OkLives` | week5/syscall/src/mm.c:15-43 | a space with regions and tables in agreement is one as it can be |
| `Mm.Mm.Mmap` | week5/syscall/src/mm.c:193-268 | refuses exactly ranges that end above HIGHER_BASE, run backwards or overlap a region, changing nothing; on success one region is inserted at its place, an address is translated if and only if a region holds it, every leaf lies in one region and has the flags of its permissions, and outside the range no translation changes; without a node nothing changes; where pt_map gives up every page of the zone was held, and after the rollback regions and tables agree again if and only if no region ends above the range |
| `Mm.Mm.TakeBack` | week5/syscall/src/mm.c:224-260 | the rollback itself: ownership, other spaces and everything below the range are kept |
| `Rollback.RollbackDone` | week5/syscall/src/mm.c:242-260 | `begin` is the start of the region that follows, if there is one, and the end of the region before otherwise: in the first case that region loses its translation, in the second exactly what the failed call had mapped is gone |
| `Rollback.RollbackNone` | week5/syscall/src/mm.c:242-259 | no leaf, old or new, reaches over the start of the rollback |
| `Rollback.RollbackLoses` | week5/syscall/src/mm.c:242-260 | in every space as it can be with a region that follows, a rollback after nothing was mapped takes the first page of that region, which stays in the list |
| `MmFails.FailedMmap` | week5/syscall/src/mm.c:193-260 | with no page free, the tables over the start all there and a region above, mmap fails and leaves regions and tables apart |
| `MmFails.MmapBreaks` | week5/syscall/src/mm.c:193-260 | such a space: one page at 8K, every page of its zone held, and the call mmap(4K, 8K) |
| `Mm.Mm.CutRegions` | week5/syscall/src/mm.c:131-179 | the list half of munmap, for any range of the user half: unchanged exactly where a region straddles an end, else exactly the regions inside the range go |
| `Mm.Mm.Munmap` | week5/syscall/src/mm.c:129-182 | refuses exactly when a region straddles an end, changing nothing; otherwise the regions inside go and the tables are those of the loop over the gap; blocks, tables and other spaces stay consistent for every gap; where regions and tables agreed they agree afterwards if and only if the tables were filled up to the end of the gap, and then outside the range no translation changes; over the whole user half everything goes |
| `Regions.Reach` | week5/syscall/src/paging.c:36-55 | the walk to an address that a table covers goes through that table |
| `Regions.LeafUnique` | week5/syscall/src/paging.c:36-55 | no address has two leaves |
| `Regions.MappedLeaves` | week5/syscall/src/paging.c:97-112 | after mapping a new region every leaf lies inside one region and has the flags of that region |
| `Regions.GapCutsNone` | week5/syscall/src/mm.c:176-180 | the gap that munmap hands to pt_unmap cuts no leaf |
| `Regions.GapAnchored` | week5/syscall/src/mm.c:176-180 | it starts at 0 or right after a translated address, so tables lead to its start |
| `Regions.CutBacked` | week5/syscall/src/mm.c:176-180 | after unmapping the gap exactly the regions that stay are translated if and only if the tables were filled up to its end |
| `Regions.CutLeaves` | week5/syscall/src/mm.c:176-180 | and every leaf that is left lies in one of them |
| `Mm.Mm.Release` | week5/syscall/src/mm.c:46-51 | gives back exactly the blocks of the space and removes exactly its tables; all other tables are as they were |
| `Mm.UserOneToOne` | week5/syscall/src/paging.c:78-133 | in a space that owns its blocks, different user addresses have different physical addresses |
| `Mm.UserNoShare` | week5/syscall/src/paging.c:78-133 | spaces that hold different blocks share no physical address |
| `Mm.UserInRam` | week5/syscall/src/paging.c:78-133 | user frames lie in memory and never at address zero, so a zero from pt_addr means unmapped |
| `Mm.Lookup` | week5/syscall/src/paging.c:36-55 | pt_addr on a space returns zero exactly at unmapped addresses, and the frame address elsewhere |
| `Access.LeafDecides` | week5/syscall/src/paging.c:78-130 | on the walk to a translated user address every table entry allows everything, so what is allowed rests with the leaf |
| `Access.RegionRights` | week5/syscall/src/mm.c:184-268 | in a space whose regions and tables agree a program may use exactly the addresses that a region holds, and write exactly those whose region has the permission bit that user_flags tests |
| `Access.WriteRight` | week5/syscall/src/mm.c:184-191 | the bit tested is numbered like the enumerator, so it is the permission to read: whether a page can be written is what its region says if and only if the region permits both reading and writing or neither; one that permits reading alone is writable |
| `Mm.MCopy` | week5/syscall/src/mm.c:78-108 | terminates; copies byte for byte up to the first chunk that one side does not map, whatever the two page offsets are, and changes no other byte; succeeds exactly when all bytes were copied |
| `ByteCopy.Memcpy` | week5/syscall/src/string.c:51-59 | copies n bytes between ranges that do not overlap and changes nothing else |
| `ByteCopy.CopyStep` | week5/syscall/src/mm.c:102-105 | one more chunk neither overwrites a byte copied before nor a source byte still to come |
| `ByteCopy.ChunkPages` | week5/syscall/src/mm.c:91-93 | a chunk is never empty and stays inside one page on both sides |
| `ByteCopy.ChunkFrames` | week5/syscall/src/mm.c:96-102 | the frame addresses of a chunk are consecutive, so one memcpy per side is right |
| `MmCopy.MirrorMap` | week5/syscall/src/mm.c:117-120 | mapping the next region leaves the bytes mirrored so far alone |
| `MmCopy.MirrorCopy` | week5/syscall/src/mm.c:122-123 | copying its bytes extends the mirror to it |
| `MmCopy.SourceBytes` | week5/syscall/src/mm.c:110-126 | the source still shows its own bytes afterwards |
| `MmCopy.NeighbourStays` | week5/syscall/src/mm.c:110-126 | whatever one space does to its half of the tables, a space that holds other blocks keeps its tables, blocks and translation |
| `MmCopy.BothMapped` | week5/syscall/src/mm.c:122-123 | mcopy cannot fail inside a region that both spaces map |
| `MmCopy.CopyRegions` | week5/syscall/src/mm.c:112-124 | goes through all regions unless nodes run out or a mapping found every page of the zone held; even then regions and tables of the copy agree, since no region follows the one that failed |
| `MmCopy.CopyMm` | week5/syscall/src/mm.c:110-126 | on success the copy has the same region list, shows the same byte at every mapped address, and shares no frame with the source; when memory runs out it is empty again; the source is unchanged either way |
| `MmCopy.Undo` | week5/syscall/src/mm.c:117-120 | munmap of the whole half after a failed mmap empties the copy and leaves the source alone |
| `MmRun.BusyDecides` | week5/syscall/src/buddy.c:198-274 | the held blocks and the pages of a zone determine its free pages |
| `MmRun.Serve` | week5/syscall/src/mm.c:129-268 | one mmap or munmap call, refused and failed ones included, leaves alone all that the space does not hold, and it is known from lists and tables whether regions and tables still agree |
| `MmRun.CreateMapRelease` | week5/syscall/src/mm.c:15-268 | create, any sequence of mmap and munmap calls, refused and failed ones among them (as long as regions and tables agree), release: held blocks, free pages, tables in memory and the block set of every order list are what they were |
| `Slab.ByteInBlock` | week5/syscall/src/slab.c:32-45 | every byte of a slab lies in a page of its buddy block |
| `Slab.SlabsApart` | week5/syscall/src/slab.c:25-48 | two slabs share no byte, because their buddy blocks share no page |
| `Slab.ObjectsApart` | week5/syscall/src/slab.c:25-72 | a live object overlaps no other live object and no slab header |
| `Slab.MaskFinds` | week5/syscall/src/slab.c:196-201 | masking any address inside a live object leads to the header of the slab it came from, because buddy blocks are naturally aligned |
| `Slab.ClientWrites` | week5/syscall/src/slab.c:55-72 | whatever clients write into live objects, free lists, counts and lists stay right |
| `Slab.ObjectAligned` | week5/syscall/src/slab.c:85-96 | objects keep the alignment of their size, up to that of a page |
| `SlabSteps.SlotsCounted` | week5/syscall/src/slab.c:55-72 | a free list of distinct objects is never longer than the slab, and as long as the slab only when it holds every object |
| `SlabSteps.DetachKeeps` | week5/syscall/src/slab.c:166-171 | a slab taken off its list leaves all others on the list their count says |
| `SlabSteps.AttachKeeps` | week5/syscall/src/slab.c:180-183 | put back by its count it is on exactly the full, partial or empty list |
| `SlabSteps.PopLive` | week5/syscall/src/slab.c:55-63 | the object handed out was not live and is the only change to the live objects |
| `SlabSteps.PopKeeps` | week5/syscall/src/slab.c:55-63 | the count stays the length of the free list |
| `SlabSteps.PushKeeps` | week5/syscall/src/slab.c:65-72 | returning a live object keeps free list, count and disjointness |
| `SlabSteps.PushLive` | week5/syscall/src/slab.c:65-72 | exactly the returned object stops being live |
| `SlabSteps.ThreadLinked` | week5/syscall/src/slab.c:40-46 | the threading loop of a new slab links exactly its objects |
| `SlabSteps.CreateKeeps` | week5/syscall/src/slab.c:25-48 | a new slab disturbs no other slab and makes no object live |
| `SlabSteps.DestroyKeeps` | week5/syscall/src/slab.c:50-53 | giving up a slab whose objects are all free disturbs no other slab |
| `SlabCache.ObjectCache.constructor` | week5/syscall/src/slab.c:85-124 | picks the smallest order whose slabs hold MAX_ORDER objects beside the header, or MAX_ORDER + 1 where no order does |
| `SlabCache.ObjectCache.SlabCreate` | week5/syscall/src/slab.c:25-48 | none exactly when the zone has no aligned run of that order; otherwise one more slab, all objects free |
| `SlabCache.ObjectCache.Alloc` | week5/syscall/src/slab.c:162-185 | zero exactly when no slab has a free object and the zone no block; otherwise an object that was not live; an unused slab is taken only where no slab is partly used, and a new one made only where every slab is full |
| `SlabCache.ObjectCache.Pick` | week5/syscall/src/slab.c:164-176 | the slab is the first partly used one, else the first unused one, else a new one; none exactly when there is no such slab and the zone has no block |
| `SlabCache.ObjectCache.Take` | week5/syscall/src/slab.c:178-184 | takes one free object and files the slab by its new count |
| `SlabCache.ObjectCache.Free` | week5/syscall/src/slab.c:196-210 | finds the slab by masking and makes exactly this object free |
| `SlabCache.ObjectCache.GiveBack` | week5/syscall/src/slab.c:203-209 | pushes the object and files the slab by its new count |
| `SlabCache.ObjectCache.SlabDestroy` | week5/syscall/src/slab.c:50-53 | the block of a slab without live objects goes back, nothing else changes |
| `SlabCache.ObjectCache.Shrink` | week5/syscall/src/slab.c:143-160 | gives back exactly the slabs without live objects, each once; live objects stay |
| `SlabCache.ObjectCache.Release` | week5/syscall/src/slab.c:133-140 | hangs exactly when an object is out; otherwise every block is back in the zone |
| `SlabCache.NoneOut` | week5/syscall/src/slab.c:133-140 | the test on the two lists is right: no object is live exactly when full and partial are empty |
| `ThreadSteps.NotifyKeeps` | week5/syscall/src/condition.c:130-142 | notify_one keeps the scheduler invariant |
| `ThreadSteps.SwitchKeeps` | week5/syscall/src/threads.c:244-277 | whatever thread is switched to, the ready queue again holds exactly the active threads other than the running one and idle |
| `ThreadSteps.TickKeeps` | week5/syscall/src/threads.c:279-286 | a tick keeps the scheduler invariant |
| `ThreadRuns.StepKeeps` | week5/syscall/src/threads.c:153-286 | every step of start, tick, block, exit, join, destroy, lock, unlock, wait, notify and wake keeps the whole invariant: ready queue, thread states, mutex queues, condition queues, joiners, handover history |
| `ThreadRuns.BootInv` | week5/syscall/src/threads.c:335-357 | the state after setup satisfies it |
| `ThreadRuns.RunKeeps` | week5/syscall/src/threads.c:153-286 | so does every state of every run |
| `ThreadRuns.OneJoiner` | week5/syscall/src/threads.c:193-198 | at most one thread is queued on the condition of a thread, and it is in thread_join for it |
| `ThreadRuns.PlaceJoin` | week5/syscall/src/threads.c:51-58 | the death of a thread empties the queue of its condition and leaves no joiner behind |
| `ThreadLocks.OneTurn` | week5/syscall/src/mutex.c:30-42 | a thread that runs again inside mutex_lock owns the mutex and is the head of its queue: the loop never blocks it twice |
| `ThreadLocks.HeadBlocked` | week5/syscall/src/mutex.c:49-54 | unlock wakes only a thread that is blocked and off the CPU |
| `ThreadTheorems.StepNearer` | week5/syscall/src/threads.c:153-286 | no step moves a ready thread further from running, and a preemptible tick brings it one tick nearer |
| `ThreadTheorems.TicksBounded` | week5/syscall/src/threads.c:279-286 | a ready thread that never runs sees fewer preemptible ticks than its rank |
| `ThreadTheorems.NoStarvation` | week5/syscall/src/threads.c:231-286 | a thread at position k of the ready queue runs before (k + 1) * TIMESLICE preemptible ticks have passed, in every run |
| `ThreadTheorems.DeathBySuccessor` | week5/syscall/src/threads.c:51-58 | a thread becomes dead only when it had finished, and by the step that puts another thread on the CPU |
| `ThreadTheorems.OverStep` | week5/syscall/src/threads.c:182-204 | after its exit no step makes a thread live again or changes its return value |
| `ThreadTheorems.JoinValue` | week5/syscall/src/threads.c:193-204 | in every run after thread_exit(ret) and before the thread is destroyed: the test of a thread_join goes through exactly when the thread is dead, and then the join returns ret; otherwise the joiner is queued |
| `ThreadTheorems.JoinOnce` | week5/syscall/src/threads.c:197-198 | a joiner that runs again finds its thread dead: the loop never waits twice |
| `ThreadTheorems.DeathWakesJoiner` | week5/syscall/src/threads.c:54-57 | the step in which a thread dies makes whoever waits in thread_join for it active again |
| `ThreadTheorems.ExitIsOver` | week5/syscall/src/threads.c:182-191 | thread_exit leaves the thread finished with its value stored |
| `ThreadTheorems.DeadIsGone` | week5/syscall/src/threads.c:206-211 | freeing the stack of a dead thread is safe: it is not running, in no queue, about to be woken by nobody, owns no mutex, and nobody sleeps in a join for it |
| `ThreadTheorems.MutualExclusion` | week5/syscall/src/mutex.c:19-59 | at most one thread is past mutex_lock, and it is the owner |
| `ThreadTheorems.HandoffInOrder` | week5/syscall/src/mutex.c:46-59 | the lock passes to the waiters in the order in which they queued up |
| `ThreadTheorems.NoLostWakeup` | week5/syscall/src/condition.c:82-160 | a blocked thread is never ready and is in exactly one place where a future event finds it: the queue of a mutex with a live owner, the queue of a condition, the condition of a thread that is not dead, or the list of a notifier that is still running |
| `ThreadEffects.StepFollows` | week5/syscall/src/threads.c:153-286 | what each step does, variable by variable and without the functions of the code: to the owner and the queue of every mutex, the waiters of every condition, the status and place of every thread, the ready queue, the running thread and the rest of its slice |
| `ThreadPromises.SleepRun` | week5/syscall/src/condition.c:82-97 | no step makes a thread that sleeps in condition_wait the owner of its mutex, in any run |
| `ThreadPromises.BootSleeps` | week5/syscall/src/condition.c:82-97 | in every state of every run from setup a thread blocked in condition_wait does not own its mutex |
| `ThreadPromises.WaitReleases` | week5/syscall/src/condition.c:82-94 | condition_wait: the caller is last in the queue of the condition, blocked, and owns its mutex no more; the mutex is free where nobody was waiting for it, else it belongs to the first who was, who is active and last in the ready queue |
| `ThreadPromises.MutexReturn` | week5/syscall/src/condition.c:96-96 | whoever comes out of mutex_lock after a wait, or out of condition_wait, owns the mutex and is past it |
| `ThreadPromises.OwnerKeeps` | week5/syscall/src/mutex.c:19-59 | no step but a release by its owner takes a mutex from its owner |
| `ThreadPromises.TickSlice` | week5/syscall/src/threads.c:279-286 | a preemptible tick with more than one tick left only counts; with the last one the head of the ready queue goes on, with a full slice |
| `ThreadPromises.SliceKept` | week5/syscall/src/threads.c:231-286 | in every run without a call of schedule the running thread keeps the CPU for as many ticks as its slice has left, less one |
| `ThreadPromises.FullSlice` | week5/syscall/src/threads.c:231-286 | so a thread just switched to stays on the CPU for TIMESLICE - 1 ticks, unless it calls schedule itself, as blocking, exiting and yielding do |
| `ThreadPromises.WaitersInOrder` | week5/syscall/src/condition.c:82-160 | in every run the waiters of a condition leave its queue in the order in which they came |
| `ThreadPromises.NotifyWakes` | week5/syscall/src/condition.c:130-142 | notify_one makes the longest waiter active, last in the ready queue |
| `ThreadPromises.NotifyAllWakes` | week5/syscall/src/condition.c:144-160 | the loop of notify_all, run to its end, makes everyone who was waiting active and ready, in order |
| `Kernel.Scheduler.constructor` | week5/syscall/src/threads.c:335-354 | starts in the boot state of the step system |
| `Kernel.Scheduler.Start` | week5/syscall/src/threads.c:153-165 | the code is the wake step; for a new thread the start step, keeping the invariant |
| `Kernel.Scheduler.BlockSelf` | week5/syscall/src/threads.c:173-180 | the code is the block part of lock, wait and join |
| `Kernel.Scheduler.Notify` | week5/syscall/src/condition.c:130-142 | the code is the notify_one step, from a thread or an interrupt handler: the first waiter, in queue order; it keeps the invariant |
| `Kernel.Scheduler.PlaceThread` | week5/syscall/src/threads.c:51-65 | the code is the place part of a switch: a finished predecessor dies and its joiner is woken |
| `Kernel.Scheduler.Reschedule` | week5/syscall/src/threads.c:231-277 | the code is the schedule step in all its branches and keeps the invariant |
| `Kernel.Scheduler.TimerTick` | week5/syscall/src/threads.c:279-286 | the code is the tick step and keeps the invariant; with more than one tick left in the slice the same thread stays on the CPU, the queue and every status stay, and the slice is one tick shorter |
| `Kernel.Scheduler.TickInSection` | week5/syscall/src/threads.c:214-228 | a tick that lands between preempt_disable and preempt_enable is the busy tick: the thread stays on the CPU and the queue is untouched |
| `Kernel.Scheduler.ExitSelf` | week5/syscall/src/threads.c:182-191 | the code is the exit step and keeps the invariant |
| `Kernel.Scheduler.JoinThread` | week5/syscall/src/threads.c:193-204 | the code is the join step: done exactly when the thread is dead, then with the value it exited with; it keeps the invariant |
| `Kernel.Scheduler.JoinResumed` | week5/syscall/src/threads.c:197-203 | after the wait the join is done at the first try, with the value the thread exited with |
| `Kernel.Scheduler.LockMutex` | week5/syscall/src/mutex.c:19-36 | the code is the lock step; returns at once exactly when the mutex was free or is already owned by the caller |
| `Kernel.Scheduler.LockResumed` | week5/syscall/src/mutex.c:38-43 | the code is the relock step, after which the thread is inside |
| `Kernel.Scheduler.UnlockMutex` | week5/syscall/src/mutex.c:46-59 | the code is the unlock step and keeps the invariant |
| `Kernel.Scheduler.WaitOn` | week5/syscall/src/condition.c:82-92 | the code is the wait step: queue and block come before the lock is given up, which then belongs to the first that waited for it or to nobody; it keeps the invariant |
| `Kernel.Scheduler.WaitResumed` | week5/syscall/src/condition.c:94-97 | the code is the step after schedule has returned: the lock is taken again |
| `Kernel.Scheduler.NotifyEveryone` | week5/syscall/src/condition.c:144-152 | the code is the first part of notify_all: all waiters move to the notifier |
| `Kernel.Scheduler.NotifyNext` | week5/syscall/src/condition.c:154-159 | the code is one turn of its loop, and wakes only a blocked thread off the CPU |
| `Intervals.AddIsUnion` | week5/syscall/src/balloc.c:25-67 | adding a non-empty range computes the set union and keeps the array sorted, non-empty and non-touching |
| `Intervals.CutIsDifference` | week5/syscall/src/balloc.c:69-93 | removing a range computes the set difference and keeps that form |
| `Intervals.CanonUnique` | week5/syscall/src/balloc.c:25-93 | that form is unique: arrays that hold the same addresses are equal |
| `Intervals.RunInOne` | week5/syscall/src/balloc.c:105-122 | a run of free bytes always lies in one range |
| `Balloc.RangeList.MemMove` | week5/syscall/src/string.c:70-83 | memmove in either direction, as the two callers use it |
| `Balloc.RangeList.Locate` | week5/syscall/src/balloc.c:28-35 | the two loops stop at the first range not wholly below and the first wholly above the interval |
| `Balloc.RangeList.AddRange` | week5/syscall/src/balloc.c:25-67 | hangs exactly when the result would not fit the array; otherwise the array is that of the specification |
| `Balloc.RangeList.RemoveRange` | week5/syscall/src/balloc.c:69-93 | likewise, with the exact condition under which one of its two additions overflows |
| `Balloc.RangeList.FindRange` | week5/syscall/src/balloc.c:105-122 | returns the fit that Balloc.LeastFit describes, on 64-bit words, for every start, limit, size and alignment |
| `Balloc.LeastFit` | week5/syscall/src/balloc.c:105-122 | for every start, limit, size and alignment: the least aligned run in a range that begins below the limit and ends above the start; the limit exactly where there is none or the least one starts there |
| `Balloc.AllocLeast` | week5/syscall/src/balloc.c:105-135 | from address 0, for every limit: the least aligned run of free bytes in a range that begins below the limit; nothing is found if and only if there is none, or the least one starts at the limit |
| `Balloc.LimitMissed` | week5/syscall/src/balloc.c:105-135 | such a run: a page at the limit, in a range that begins below it, is not handed out |
| `Balloc.FitIsFree` | week5/syscall/src/balloc.c:105-135 | unless a range ends so near 2^64 that rounding wraps, a fit is aligned, all its bytes are free, and taking it takes exactly its bytes out of the free set |
| `Balloc.AllocFails` | week5/syscall/src/balloc.c:125-140 | balloc_alloc fails exactly when no aligned run of free bytes is long enough |
| `Balloc.RangeList.Alloc` | week5/syscall/src/balloc.c:125-135 | zero and nothing changed exactly where there is no fit as Balloc.AllocLeast says; else the fit is cut out of the list, or the array overflows under the exact condition |
| `Balloc.CutLonger` | week5/syscall/src/balloc.c:69-93 | a removal makes the array longer by at most one, and never overflows an array that is not full |
| `Boot.BootMemory.Setup` | week5/syscall/src/balloc.c:142-195 | afterwards the known set is the union of all entries and the first megabyte, and the free set is available minus reserved, kernel, initial ramdisk and first megabyte; cannot hang unless the map has more than 253 entries |
| `Boot.BootMemory.Collect` | week5/syscall/src/balloc.c:147-160 | its first loop: unions of all, and of the available, entries |
| `Boot.BootMemory.Reserve` | week5/syscall/src/balloc.c:168-177 | its second loop: the reserved entries taken out |
| `Boot.MapOrder` | week5/syscall/src/balloc.c:142-195 | the order of the memory map does not matter: same entries, same free array and same known array |
| `Boot.FreeIsKnown` | week5/syscall/src/balloc.c:142-195 | the free set lies inside the known set |
| `Boot.ZoneFound` | week5/syscall/src/buddy.c:113-125 | every free range with a whole page lies in one zone: the "no zone" branch is unreachable |
| `Boot.ZonesApart` | week5/syscall/src/buddy.c:156-177 | zones of different ranges have no page in common |
| `Boot.RunsApart` | week5/syscall/src/buddy.c:183-193 | the pages of different free ranges are at least a page apart, so handing one over never meets a free buddy of another |
| `Boot.ZoneSpans` | week5/syscall/src/buddy.c:113-128 | a free range that reaches into the pages of a zone lies wholly inside that zone |
| `Boot.PagesAreFree` | week5/syscall/src/buddy.c:183-193 | the pages handed to a zone are exactly its wholly free pages |
| `Boot.FillZone` | week5/syscall/src/buddy.c:183-193 | after setup the free set of a zone is exactly those pages and nothing is held |
| `Ramfs.ReadPage` | week5/syscall/src/ramfs.c:91-111 | one page copied extends what the buffer shows, whatever part of the page the range meets |
| `Ramfs.ChunkAgrees` | week5/syscall/src/ramfs.c:140-172 | a chunk written into a page, new or old, changes the flat file in exactly those bytes |
| `Ramfs.ShownFlat` | week5/syscall/src/ramfs.c:81-112 | what the pages show is the flat file: written bytes with their last value, zero on pages never written |
| `Ramfs.UnwrittenPage` | week5/syscall/src/ramfs.c:140-158 | there is a page only where a byte was written |
| `Ramfs.File.constructor` | week5/syscall/src/ramfs.c:42-45 | an empty file |
| `Ramfs.File.CopyOut` | week5/syscall/src/string.c:51-59 | copies into the buffer and changes nothing else in it |
| `Ramfs.File.Clear` | week5/syscall/src/string.c:61-68 | clears the buffer |
| `Ramfs.File.ReadAt` | week5/syscall/src/ramfs.c:81-124 | returns min(size, file size - offset), every byte ever written with its last value, and zero on pages never written and beyond the end |
| `Ramfs.File.Put` | week5/syscall/src/ramfs.c:140-172 | one chunk: the page list stays sorted, aligned and free of duplicates, and grows by one exactly for a new page |
| `Ramfs.File.WriteAt` | week5/syscall/src/ramfs.c:126-175 | the flat file gains exactly the first r bytes at the offset; short only when fewer pages could be had than the range touches; -1 only where none could; takes no more pages than the range touches |
| `Ramfs.PagesTouched` | week5/syscall/src/ramfs.c:127-181 | the pages that a write is counted to need are those that some byte of it lies in |
| `RamfsFiles.WriteOver` | week5/syscall/src/initramfs.c:64-64 | a full write from offset 0 leaves a fully written file a fully written one, with the new bytes over its start |
| `RamfsFiles.PutChanges` | week5/syscall/src/initramfs.c:55-71 | create_file changes the content of the file of that name alone, one that was not there counting as empty |
| `RamfsFiles.FileSystem.constructor` | week5/syscall/src/ramfs.c:187-193 | no files |
| `RamfsFiles.FileSystem.Search` | week5/syscall/src/ramfs.c:25-35 | the first file of that name, if any |
| `RamfsFiles.FileSystem.Open` | week5/syscall/src/ramfs.c:23-48 | the file of that name, or a new empty one at the front where creating is asked for, or none; nothing else changes |
| `RamfsFiles.FileSystem.CreateFile` | week5/syscall/src/initramfs.c:55-71 | the listing gains or overwrites exactly this file; hangs only when fewer pages are left than the body needs |
| `Initramfs.ParseHex` | week5/syscall/src/initramfs.c:40-53 | the value of eight hexadecimal digits in either case, up to a terminator |
| `Initramfs.RegularMode` | week5/syscall/src/initramfs.c:17-19 | a mode is regular if and only if its bits under the mask 0xF000 are 0x8000 |
| `Initramfs.Align4Facts` | week5/syscall/src/initramfs.c:87-103 | `(x + 3) & ~3` is the next multiple of four |
| `Initramfs.StepAdvances` | week5/syscall/src/initramfs.c:77-104 | every pass moves on by at least a header, so the loop ends |
| `Initramfs.ParseMember` | week5/syscall/src/initramfs.c:78-103 | one pass of the loop, with all its ways out; which members it lists is Cpio.StepMember and Initramfs.RegularMode |
| `Initramfs.ParseCpio` | week5/syscall/src/initramfs.c:73-105 | on any bytes: terminates, reads every header in bounds and leaves exactly the files the members say (Cpio.ParseArchive, Cpio.RegularListed); hangs only when the bodies need more pages than there are |
| `Cpio.StepMember` | week5/syscall/src/initramfs.c:78-103 | a member standing at a position is read as it is, and the next position is where the next member stands |
| `Cpio.ParseArchive` | week5/syscall/src/initramfs.c:73-105 | parsing an archive creates exactly its regular members before the trailer, in order |
| `Cpio.ParseCut` | week5/syscall/src/initramfs.c:73-105 | an archive that breaks off inside a header, a name or a body creates exactly the regular members that are complete |
| `Cpio.PutDistinct` | week5/syscall/src/initramfs.c:55-71 | with distinct names the file system then holds exactly these files |
| `Cpio.LoadArchive` | week5/syscall/src/initramfs.c:107-110 | from an archive with distinct names an empty file system ends with exactly its regular members, each with its exact bytes; enough pages for the bodies suffice |
| `Cpio.HexRoundTrip` | week5/syscall/src/initramfs.c:40-53 | a number written in hexadecimal digits is read back |
| `Cpio.HexSpelled` | week5/syscall/src/initramfs.c:40-53 | a field is read as a number if and only if its text writes that number in base 16, with letters in either case |
| `Cpio.EncodeIsArchive` | week5/syscall/src/initramfs.c:22-37 | archives in the "New ASCII Format" of cpio(5) exist for every list of members: the encoder makes one |
| `Cpio.RoundTrip` | week5/syscall/src/initramfs.c:73-105 | reading what the encoder wrote gives the members back |
| `Cpio.RegularListed` | week5/syscall/src/initramfs.c:17-101 | the archive of one member creates its file if and only if its type bits are those of a regular file: mode 0x81A4 does, mode 0x41ED does not |
| `Stdlib.LeadingDigit` | week5/syscall/src/stdlib.c:63-68 | a text starts with 0 only for the value 0, and never with a sign or a space |
| `Stdlib.DigitsText` | week5/syscall/src/stdlib.c:47-57 | the printed text consists of digits and lower-case letters below the base, has no leading zero, and has the value in positional notation |
| `Stdlib.ReversedAt` | week5/syscall/src/stdlib.c:72-77 | the reversal reads from the other end |
| `Stdlib.DigitLoop` | week5/syscall/src/stdlib.c:63-68 | the loop leaves the digits, least significant first, and touches nothing else |
| `Stdlib.ReverseLoop` | week5/syscall/src/stdlib.c:72-77 | the in-place reversal |
| `Stdlib.Ulltoa` | week5/syscall/src/stdlib.c:57-80 | the digits of the value in the base, most significant first, terminated, nothing else in the buffer changed |
| `Stdlib.Lltoa` | week5/syscall/src/stdlib.c:82-94 | the same with a minus sign for negative values |
| `Stdlib.ChooseBase` | week5/syscall/src/stdlib.c:19-33 | the base and the skipped prefix, with the misplaced parenthesis of line 31 as it is |
| `Stdlib.EatLoop` | week5/syscall/src/stdlib.c:35-46 | the digit loop with its overflow guard on 64-bit words |
| `Stdlib.Strtoul` | week5/syscall/src/stdlib.c:5-55 | value and end position as specified, for every string and base |
| `Stdlib.NoOverflow` | week5/syscall/src/stdlib.c:39-43 | one more digit of a number below 2^64 never trips the guard |
| `Stdlib.EatDigits` | week5/syscall/src/stdlib.c:35-46 | eating the digits of a value gives the value |
| `Stdlib.PrintParse` | week5/syscall/src/stdlib.c:5-80 | strtoul of the printed text is the value, for every value below 2^64 and every base from 2 to 36; the end pointer is the end of the text if and only if it is not the value 0 in base 8 |
| `Stdlib.PrintParseAuto` | week5/syscall/src/stdlib.c:19-27 | base 0 reads decimal text the same way |
| `Stdlib.OverflowParse` | week5/syscall/src/stdlib.c:32-43 | the text of a number that no 64-bit word holds parses to the largest word |
| `Stdlib.PrefixParse` | week5/syscall/src/stdlib.c:19-30 | printed text behind 0x in base 16 or 0, and behind 0 in base 8 or 0, parses to the value, with the end pointer at its end |
| `Stdlib.SkippedParse` | week5/syscall/src/stdlib.c:11-17 | a space in front, or a plus sign before what is no space or sign, changes neither the value nor, but for its own length, the end |
| `Stdlib.MinusParse` | week5/syscall/src/stdlib.c:51-52 | a minus sign negates modulo 2^64 |
| `Stdlib.SignedParse` | week5/syscall/src/stdlib.c:5-94 | signed text parses to the value modulo 2^64 |
| `Monitor.StepKeeps` | week4/sync/producer-consumer/example.cpp:66-101 | every step, spurious wakeups included, keeps produced == consumed ++ pending slot |
| `Monitor.RunKeeps` | week4/sync/producer-consumer/example.cpp:66-122 | so does every run, with any number of producers and consumers |
| `Monitor.StopsAtEnd` | week4/sync/producer-consumer/example.cpp:85-101 | a consumer stops only after finish and with nothing pending |
| `Monitor.FinishEnds` | week4/sync/producer-consumer/example.cpp:77-83 | after finish `done` is set, every consumer that slept is at its test again, and the slot is as before |
| `Monitor.EndingRun` | week4/sync/producer-consumer/example.cpp:77-100 | in every run after finish `done` stays set, no thread sleeps again, and the consumers test exactly as often as the slot and their own number allow |
| `Monitor.FinishedRun` | week4/sync/producer-consumer/example.cpp:77-100 | in every run in which finish is called, for any number of threads: no thread sleeps, and a consumer that tests an empty slot stops, with everything consumed |
| `Monitor.ProgramEnds` | week4/sync/producer-consumer/example.cpp:66-133 | so in the program, once the tests left are done, every consumer has stopped and everything produced was consumed |
| `Monitor.PairRun` | week4/sync/producer-consumer/example.cpp:66-122 | with one producer and one consumer each sleeps only while its own condition holds, in every run |
| `Monitor.NeverBothAsleep` | week4/sync/producer-consumer/example.cpp:103-122 | so the two are never asleep together, nothing is lost or reordered, and at the end everything was consumed |
| `Monitor.TwoProducersStuck` | week4/sync/producer-consumer/example.cpp:66-101 | with two or more producers and any number of consumers a run leads to every thread asleep, the slot full |
| `Monitor.TwoConsumersStuck` | week4/sync/producer-consumer/example.cpp:66-101 | with one producer and two or more consumers a run leads to every thread asleep, the slot empty |
| `Monitor.NeverStuck` | week4/sync/producer-consumer/example.cpp:66-133 | for every number of producers and consumers: no reachable state has every thread asleep if and only if there is one of each |
| `Monitor.Slot.ProduceTurn` | week4/sync/producer-consumer/example.cpp:66-75 | the code is the produce step; it waits exactly when the slot is full |
| `Monitor.Slot.ConsumeTurn` | week4/sync/producer-consumer/example.cpp:85-101 | the code is the consume step: a value exactly when the slot is full, the end exactly when it is empty and finished |
| `Monitor.Slot.FinishAll` | week4/sync/producer-consumer/example.cpp:77-83 | the code is the finish step, of which Monitor.FinishEnds says what it does |
| `LinkedList.ListHead.constructor` | week5/syscall/src/list.c:4-7 | a new head is an empty ring |
| `LinkedList.Init` | week5/syscall/src/list.c:4-7 | an empty ring |
| `LinkedList.Insert` | week5/syscall/src/list.c:9-16 | links the node between its neighbours |
| `LinkedList.AddBefore` | week5/syscall/src/list.c:18-21 | the ring gains the node before that element, at the tail for the head; the links both ways agree with the new sequence |
| `LinkedList.AddAfter` | week5/syscall/src/list.c:23-26 | the ring gains the node after that element, at the front for the head |
| `LinkedList.Del` | week5/syscall/src/list.c:28-35 | the ring loses exactly this node |
| `LinkedList.Empty` | week5/syscall/src/list.c:72-75 | true exactly for the empty sequence |
| `LinkedList.SpliceAfter` | week5/syscall/src/list.c:37-46 | a chain of nodes goes in after any position, in order |
| `LinkedList.Splice` | week5/syscall/src/list.c:48-58 | all nodes move to the front of the other ring and the first ring is empty |
| `LinkedList.SpliceTail` | week5/syscall/src/list.c:60-70 | all nodes move to the end of the other ring |
| `LinkedList.PartOfRing` | week5/syscall/src/list.c:37-46 | consecutive elements of a ring form a chain |
| `LinkedList.Join` | week5/syscall/src/mm.c:165-166 | joining the two sides of a cut gives a ring |
| `LinkedList.TakeOut` | week5/syscall/src/mm.c:164-164 | the elements between two positions move to the local list, the sides stay linked |
| `LinkedList.CutOut` | week5/syscall/src/mm.c:157-167 | the cut of munmap: the region list loses exactly the elements between the two, which form the local list in order |

## Left out

- Several zones at once: one zone is modelled; `Boot.ZoneFound` and `Boot.ZonesApart` show that the lookup by address finds one zone.
- The descriptors of a new zone are taken as zeroed; the code does not clear them (week5/syscall/src/buddy.c:75-82).
- Mm.Mm.Mmap: page-aligned ranges of the user half only, in a space whose regions and tables agree. The code refuses only ends above HIGHER_BASE, so it accepts ends between the user half and that, which would map into the kernel half (week5/syscall/src/mm.c:195-199). The region's node, which a failed call does not give back, is a parameter.
- Mm.Mm.Munmap: non-empty ranges of the user half.
- Mm.MCopy: between two spaces that hold different blocks, over their user halves. The copies of exec.c from kernel addresses, and within one space, are not covered.
- Permission to execute: the code maps every page executable.
- `mset`, `exec.c`, system calls, interrupts, console, timer and every device.
- Page tables are a map from frames to 512 entries, kept apart from the bytes of memory; that user frames are never tables is proved (`UserFrames.FrameHeld`). Slab headers and free links are maps likewise; `Slab.ObjectsApart` is why that is sound.
- Early frames for the kernel tables are a set of pages; that balloc gives aligned free ones is `Balloc.FitIsFree`.
- The nodes of regions, files and file pages come from object caches; whether one can be had is a parameter, and the `struct mm` and `struct file` themselves are always there (`__ramfs_open` does not check, week5/syscall/src/ramfs.c:40-42).
- SlabCache.ObjectCache.constructor: where even the largest order holds fewer than MAX_ORDER objects the code keeps the count of the largest order with an order no zone has; such a cache never gives an object.
- Balloc.FitIsFree: ranges so near 2^64 that rounding up or adding the size wraps are excluded; `Balloc.RangeList.Alloc` covers them, without saying that what it returns is free.
- Balloc.AllocLeast: from address 0, as every caller does, with the same exclusion; `Balloc.LeastFit` covers other starts.
- Boot.BootMemory.Setup: the memory map is a list of non-empty entries below 2^64; walking its records by their stored size is not modelled.
- Threads: spin locks are atomic sections; a context switch is an atomic change of the running thread; interrupt handlers wake only threads that are off the CPU; the idle thread never blocks or exits; one joiner at a time per thread, and a thread is destroyed only when its joiner has returned (thread_place wakes one waiter only, week5/syscall/src/threads.c:56); no recursive locking and no unlock by another thread.
- Ramfs.File.ReadAt: bytes of an allocated page that were never written are not specified, since pages are not cleared; nor is locking.
- Initramfs.ParseHex: a field with a character that is no digit, or a name without an end inside the archive, is reported as such, since C gives it no meaning.
- Stdlib.Lltoa: LLONG_MIN is excluded, whose negation C does not define.
- Stdlib.Strtoul: characters from 128 on are taken as signed, as the compiler of the kernel does.
- `list.c` is proved on the heap on its own; the other modules use sequences, so aliasing of list nodes between lists is not modelled there.
