# Munt3OS storage, memory and scheduling core

A Dafny model of the stateful data structures of the Munt3OS kernel, with proofs about every input,
every run and every reachable state. Each part of the kernel is one or more modules:

- **ext2** (`Ext2*.dfy`, over `Forest.dfy`): the bitmap allocators, the block tree of an inode, reads and
  writes of byte ranges, directory blocks, and create, unlink and rename. The volume is a map from block
  numbers to bytes. A ghost map `home` says at which place of which tree each block hangs: its existence is
  the proof that no block is shared. `Ext2.FileSystem` is the mounted volume as an object; over every run its
  directories are finite maps whose names lead to inodes in use with no fewer links than names, and its blocks
  are conserved.
- **Buddy allocator** (`Dyadic.dfy`, `BuddyTiles.dfy`, `Buddy.dfy`, `IntrusiveList.dfy`): the pool as a tiling by
  aligned blocks. Memory that is not the header of a current block holds anything, including old headers
  and what the owner of a block wrote there.
- **Pages and page tables** (`Pmm.dfy`, `VmmState.dfy`, `VmmMap.dfy`, `VmmDestroy.dfy`, `VmmCopy.dfy`, `VmmClone.dfy`,
  `Vmm.dfy`): the physical page allocator with its rotating scan, and four-level tables as a forest over it.
- **Heap and slab cache** (`HeapBlocks.dfy`, `Heap.dfy`, `Slab.dfy`).
- **Sockets** (`Ring.dfy`, `SocketState.dfy`, `SocketSound.dfy`, `SocketTidy.dfy`, `Socket.dfy`, `SocketCalls.dfy`): the overwriting ring, and
  local stream sockets as a state machine whose steps are the code between two yields, in any interleaving of
  any number of threads, several of which may use one socket.
- **Scheduler** (`Sched.dfy`), **hash map** (`HashMap.dfy`), **SHA-256** (`Sha256.dfy`, `Sha256Abc.dfy`).

Where the C code works on memory in place, the operations here are methods with the same loops and branches
over a value that stands for that memory; a ghost value beside it is the abstract state. The classes
(`Ext2.FileSystem`, `Buddy.Allocator`, `Pmm.PageAllocator`, `Vmm.AddressSpaces`, `Heap.KernelHeap`, `Slab.ObjectCache`,
`Ring.RingBuffer`, `Sched.Scheduler`, `HashMap.StringMap`) hold that value in a field that their methods update, and their
`Valid()` is the invariant of every reachable state.

Places where the code does not do what its names or neighbours suggest are kept and made exact:

- `kmem_buddy_init` aligns blocks by address, `kmem_buddy_free` finds buddies by offset. They fit together
  exactly when the pool starts at a multiple of the largest block in it (`Buddy.InitExact`). The pool
  made in `krnl/mm.c` is only page aligned; `Buddy.Misaligned` initialises one at the second page of memory, in
  which free takes the inside of a block for a header.
- `pmm_alloc` does not see a run that crosses its cursor (`Pmm.Alloc`); `Pmm.Straddled` reaches such a state.
- `vmm_clone_context` copies the keep flag, so destroying a clone gives everything back exactly when the
  parent maps no page with that flag (`VmmClone.CloneThenDestroy`); `Vmm.KeptPageLost` runs one that loses a page.
- ext2 names are stored with an 8-bit length: create and rename refine a finite map exactly when the stored
  form of the name is new. A directory in which it was not new is the map of no names (`Ext2Names.LongNameCollides`).
- A rename that cannot store the new name has already removed the old one. It fails exactly when, without the
  old name and the victim's, no record has room and the free blocks with those of the victim do not outnumber
  the missing tables (`Ext2Unlink.CanRename`). A name that needs no more space than the old one always fits
  (`Ext2Unlink.ShorterFits`); `Ext2Full.LostName` is a volume on which the name is lost.
- Two threads may connect one socket, or one bind it while another connects it. Peers then need not point at
  each other (`Socket.ConnectedTwice`, `Socket.BoundAndConnected`). Connections stay exclusive exactly as long as no
  connect or bind uses a socket that is in a queue (`SocketTidy.StepTidy`, `Socket.RunTidy`).
- A failed accept has already taken the client from the queue, and a closed listener takes its queue along. A
  thread is then blocked on the client exactly when that is unbound and in no other queue, as it always is
  where connections are exclusive (`Socket.FailedAccept`, `Socket.ClosedListener`). It stays blocked until its socket
  is connected again or bound (`Socket.StuckStep`); `Socket.DroppedClient` and `Socket.DeafListener` are runs to such
  a client.
- A write puts down exactly as many bytes as the free blocks reach, counting the tables on the way once
  (`Ext2File.LongestPrefix`, and `Ext2Spend.RunSpentStep` for runs). A data block that it could not attach is lost. That
  happens exactly when the write is short and the bytes it did write need fewer blocks than were free, and to
  at most one block per write (`Ext2File.Spent`); `Ext2Full.LostBlock` writes one byte and loses the only free block.
- Sizes near 2^64 wrap in the buddy allocator and the heap, and offsets near 2^32 in `ext2_read`; each has
  its exact bound (`Buddy.Capacity`, `Heap.RequiredExact`, `Ext2Contents.ClippedExact`).

## Model

| member | source | states |
|---|---|---|
| Ext2Groups.MarkConsistent | krnl/fs/ext2.c:154-166 | Setting the bit of a free item while lowering both counters keeps every group counter equal to its clear bits and the superblock counter equal to their sum; clearing a bit while raising them does so exactly when the item was in use |
| Ext2Groups.TakeFirst | krnl/fs/ext2.c:134-179 | The taken item is clear, every item below it in its group is set, and no group that comes before that group, counting up from the preferred one and around, has a clear item; so the preferred group is used whenever it has one. It fails only when no group has a clear item, although groups with a zero counter are skipped unread |
| Ext2Groups.VisitCovers | krnl/fs/ext2.c:138-139 | The rotated order visits every group |
| Ext2Groups.VisitTurn | krnl/fs/ext2.c:138-139 | The k-th group visited is the one k steps after the preferred group, modulo the number of groups |
| Ext2Groups.FirstTaken | krnl/fs/ext2.c:138-168 | Told on item numbers: every free item is in a group with a later turn, or in the same group and not below the taken one |
| Ext2Groups.Take | krnl/fs/ext2.c:134-179 | An allocation returns a number that was free and removes exactly it from the free set, by setting its one bit; no free number comes before it in the order of the scan. It returns nothing only when the free set is empty |
| Ext2Groups.ScanFromZero | krnl/fs/ext2.c:208-245 | In a scan that begins at group 0 the first free number is the smallest |
| Ext2Groups.Give | krnl/fs/ext2.c:181-200 | Giving a number back clears its one bit, and adds it to the free set with exact counters if and only if it was in use |
| Ext2Groups.TotalIsCardinality | krnl/fs/ext2.c:162-166 | The superblock counter is the number of free items |
| Ext2Layout.LeafPlace | krnl/fs/ext2.c:448-500 | Every addressable logical block has a data place of its inode, whose index is that block number |
| Ext2Layout.LeafInjective | krnl/fs/ext2.c:448-500 | Different logical blocks have different places |
| Ext2Layout.LeafOnto | krnl/fs/ext2.c:448-500 | Every data place of an inode, at the end of a direct, single, double or triple chain, is that of an addressable logical block |
| Words.WordOrder | krnl/fs/ext2.c:296-381 | A table entry is four bytes, the lowest first |
| Ext2Tree.AllocBlock | krnl/fs/ext2.c:134-179 | A new block was free, the first in the order of the scan from the preferred group, is zeroed, hangs nowhere, and is the only change |
| Ext2Tree.InodeGetBlock | krnl/fs/ext2.c:448-500 | The direct, single, double and triple cases all return the pointer at the place of the logical block, 0 for a hole |
| Ext2Tree.InodeSetBlock | krnl/fs/ext2.c:275-381 | The block hangs at the place of the logical block, missing tables come from the free set and are charged to the inode, no other data pointer of any inode changes, no sharing arises; it succeeds exactly when the free blocks are no fewer than the missing tables, and on failure nothing is free and no data pointer changed |
| Ext2Tree.LensLaws | krnl/fs/ext2.c:275-500 | Setting a hole and then getting it gives the block; all other logical blocks of all inodes keep their answer |
| Ext2Replace.ReplaceBlock | krnl/fs/ext2.c:275-381 | Setting a logical block that is mapped allocates nothing, hangs the new block at its place, keeps the tree without sharing and the sector count exact, and leaves the old block neither free nor in use |
| Ext2Replace.ReplaceLaws | krnl/fs/ext2.c:275-500 | Then getting it gives the new block; all other logical blocks of all inodes keep their pointer and their bytes |
| Ext2Replace.SetSet | krnl/fs/ext2.c:275-381 | Setting a mapped block twice is setting it once |
| Ext2Replace.SetBack | krnl/fs/ext2.c:275-381 | Setting the block that was there before restores the whole state, to the bytes of the table |
| Ext2File.FillHole | krnl/fs/ext2.c:561-570 | A hole gets a zeroed block, the first free one in the order of the scan, and the inode is charged for it and for its new tables, exactly when the free blocks outnumber the missing tables, and then exactly the empty places on the way are taken up; otherwise one block is lost if any was free, and none else |
| Ext2File.Write | krnl/fs/ext2.c:543-597 | Anything but a regular file is refused. Exactly the written bytes of exactly that file change, the size becomes the maximum with the end of the write, other inodes and all old blocks stay in place. All data is written if and only if the places that are empty on the way to its blocks, each counted once, are no more than the free blocks before the call; a short write could not have written one byte more and leaves nothing free; one block is lost exactly when the written bytes need fewer than were free |
| Ext2Need.NeedStep | krnl/fs/ext2.c:553-570 | What a range of bytes needs grows, with the bytes of one block more, by exactly the empty places on the way to that block that were not counted yet |
| Ext2File.LongestPrefix | krnl/fs/ext2.c:543-597 | A write reaches its first m bytes if and only if they need no more blocks than are free before it |
| Ext2Contents.WrittenFiles | krnl/fs/ext2.c:543-597 | On whole files: the file is spliced with the data, a gap reads as zeros, every other file is the same, and bytes past every end are still zero |
| Ext2Contents.ClippedExact | krnl/fs/ext2.c:510-512 | Clipping a read to the file size is right exactly when offset plus size stays below 2^32 |
| Ext2Contents.Read | krnl/fs/ext2.c:504-537 | A read returns the slice of the contents, holes as zeros; when offset plus size wraps around, the bytes at the wrapped offsets |
| Ext2Contents.RunWrites | krnl/fs/ext2.c:543-597 | After any run of writes the files are those of replaying the writes to regular files, each possibly cut short; none is cut short if and only if the blocks that all of them need together are free before the run, and one block is lost exactly when the performed parts need fewer than were free |
| Ext2Spend.RunSpentStep | krnl/fs/ext2.c:543-597 | That condition on the state before the run carries over from a run to one with a write more |
| Ext2Contents.ReplayMeaning | krnl/fs/ext2.c:543-597 | From an empty file, every byte of a replay is that of its last writer or zero, and the size is the furthest end written |
| Ext2Contents.WriteThenRead | krnl/fs/ext2.c:504-597 | After any run of writes to any files, a read of a file that was empty returns for each byte what its last writer put there, zeros where nobody wrote, up to the furthest byte written |
| Ext2Free.FreeTree | krnl/fs/ext2.c:396-436 | A subtree gives back each of its blocks once and nothing else |
| Ext2Free.InodeFreeBlocks | krnl/fs/ext2.c:385-440 | Exactly the blocks of the inode return to the free set and all its pointers and its sector count become 0; the free count rises by the number of blocks, and the sector count of the inode was that number times the sectors per block |
| Ext2Dirent.ReuseEffect | krnl/fs/ext2.c:678-688 | Filling a free record keeps the block tiled and adds one entry |
| Ext2Dirent.SplitEffect | krnl/fs/ext2.c:689-703 | Splitting the slack off a record keeps the block tiled and adds one entry |
| Ext2Dirent.MergeEffect | krnl/fs/ext2.c:772-774 | Merging a record into its predecessor keeps the block tiled and drops exactly its entry |
| Ext2Dirent.ClearEffect | krnl/fs/ext2.c:775-778 | Clearing the first record keeps the block tiled and drops exactly its entry |
| Ext2Dirent.FreshBlock | krnl/fs/ext2.c:721-729 | A new block holds one record that spans it |
| Ext2Dirent.AppendInBlock | krnl/fs/ext2.c:669-705 | The entry goes into the first record with room: no record before it has any, the bytes of the block before that record are the same, and a free record is reused in place while a used one is cut behind its name; nothing happens exactly when no record has room |
| Ext2Dirent.RemoveInBlock | krnl/fs/ext2.c:763-790 | The entry of that stored name leaves the block, found exactly when the block has it |
| Ext2Dirent.CutRoom | krnl/fs/ext2.c:763-790 | Removing a name takes no room away from any block, and leaves room for a name as long in the block it was in |
| Ext2Dirent.FindInBlock | krnl/fs/ext2.c:623-631 | The scan finds a name exactly when an entry in use has it |
| Ext2Dirent.RecordLayout | krnl/fs/ext2.c:623-631 | The fields of a record are its bytes: inode number and record length with the lowest byte first, then name length, type and name |
| Ext2Directory.Find | krnl/fs/ext2.c:605-636 | A name is found exactly when some block of the directory holds it |
| Ext2Directory.RemoveEntry | krnl/fs/ext2.c:745-794 | One entry of that stored name leaves the directory, all other entries and all other inodes stay |
| Ext2Directory.NewBlock | krnl/fs/ext2.c:709-730 | The directory grows by a block with one entry, and its size by that block, exactly when the free blocks outnumber the missing tables; otherwise the block is given back and the entries are the same |
| Ext2Directory.AppendEntry | krnl/fs/ext2.c:645-738 | The directory gains exactly one entry, in the first record with room of its first block that has one, or else in a new block behind the others, if and only if some record of it has room, or the free blocks outnumber the tables missing for another block; otherwise its entries are the same and at most one block is free |
| Ext2Space.CutEverywhere | krnl/fs/ext2.c:745-794 | Names are unique, so removing an entry cuts the name out of every block that has it |
| Ext2Names.NamesAdd | krnl/fs/ext2.c:907-909 | Adding an entry to a directory that is a finite map of names refines adding a key exactly when the key is new |
| Ext2Names.AllocInode | krnl/fs/ext2.c:208-245 | The smallest free inode number is taken and names an empty file; every other file is the same |
| Ext2Names.FreeInode | krnl/fs/ext2.c:247-267 | The number is free again and nothing else changes |
| Ext2Names.Create | krnl/fs/ext2.c:901-927 | It succeeds exactly for a name that is not there, with a free inode number and space for the entry. The map gains the stored name for the smallest free inode number, a regular file of size 0 with one link, exactly when that stored name is new; on failure the map and the free inode numbers are the same; no other inode changes |
| Ext2Names.LongNameCollides | krnl/fs/ext2.c:652-652 | After a creation the directory is a finite map if and only if the stored name was new; a name of 257 bytes whose first byte is a name breaks it |
| Ext2Unlink.DropLink | krnl/fs/ext2.c:993-1011 | One link fewer; with the last one the inode and exactly its blocks are free |
| Ext2Unlink.Unlink | krnl/fs/ext2.c:983-1013 | The map loses exactly that name and its target a link; without the name nothing changes |
| Ext2Unlink.ClearName | krnl/fs/ext2.c:1078-1097 | A displaced victim loses its name and a link |
| Ext2Unlink.Rename | krnl/fs/ext2.c:1063-1100 | The new name maps to the old target and the old name is gone, a displaced victim loses a link, every other name and inode is the same; it fails exactly when the old name is missing or, in the state before the call, there is no space for the new name once both names and the blocks of the victim are out of the way, and then both names are gone |
| Ext2Unlink.ShorterFits | krnl/fs/ext2.c:1075-1099 | A new name whose record needs no more bytes than that of the old name can always be stored |
| Ext2Full.LostName | krnl/fs/ext2.c:1063-1100 | On a full volume with a directory of three names, renaming a short one to a long one fails and leaves two names |
| Ext2Full.LostBlock | krnl/fs/ext2.c:561-576 | On a volume with one free block, writing a byte behind an absent indirect table writes nothing and leaves the block neither free nor in use |
| Ext2.SameContents | krnl/fs/ext2.c:504-537 | A file whose size and data blocks did not change reads the same |
| Ext2.WrittenDir | krnl/fs/ext2.c:543-636 | Writing a file changes no entry of any directory |
| Ext2.CreatedDirsOk | krnl/fs/ext2.c:901-927 | Creating a file changes the map of one directory by one name and no other map |
| Ext2.RemovedDirsOk | krnl/fs/ext2.c:983-1013 | Unlinking removes one name from one map; a directory that lost its last link is gone, every other one keeps its map |
| Ext2.RenamedDirsOk | krnl/fs/ext2.c:1063-1100 | Renaming changes the map of one directory as stated and no other map, but for a victim that is gone |
| Ext2Links.NameDropped | krnl/fs/ext2.c:990-1013 | Where every name leads to an inode in use and none has more names than links, removing a name with a link keeps that; when it was the last link, no other name leads to the inode that is freed |
| Ext2.CreatedLinked | krnl/fs/ext2.c:901-927 | Creating a file keeps every name leading to an inode in use with no fewer links than names |
| Ext2.RemovedLinked | krnl/fs/ext2.c:983-1013 | Unlinking keeps it |
| Ext2.RenamedLinked | krnl/fs/ext2.c:1063-1100 | Renaming keeps it, also over another name of the same file, which then has a link left, and when the new name cannot be stored |
| Ext2.LinkedTarget | krnl/fs/ext2.c:983-994 | So the inode that a name leads to is in use and has a link to lose |
| Ext2.CreatedFiles | krnl/fs/ext2.c:901-927 | Creating a file changes no other file, and the new one is empty |
| Ext2.UnlinkedFiles | krnl/fs/ext2.c:983-1013 | Unlinking changes the contents of no other file |
| Ext2.RenamedFiles | krnl/fs/ext2.c:1063-1100 | Renaming changes the contents of no file but a displaced victim |
| Ext2.FileSystem.ReadFile | krnl/fs/ext2.c:504-537 | In every reachable state a read is a slice of the contents |
| Ext2.FileSystem.WriteFile | krnl/fs/ext2.c:543-597 | In every reachable state a write splices one regular file with as much as the free blocks reach, refuses anything else, keeps every directory, and loses at most one block: exactly when it is short and what it wrote needs fewer blocks than were free |
| Ext2.FileSystem.CreateFile | krnl/fs/ext2.c:901-927 | Creation keeps the volume consistent, all other files and directories, loses no block, and updates the map of its directory by the one name |
| Ext2.FileSystem.RemoveFile | krnl/fs/ext2.c:983-1013 | Removal keeps the volume consistent, every name leading to an inode in use, all other files and directories, loses no block, and updates the map of its directory by the one name |
| Ext2.FileSystem.RenameFile | krnl/fs/ext2.c:1063-1100 | Renaming keeps the volume consistent, every name leading to an inode in use, all other files and directories, loses no block, and updates the map of its directory by the two names |
| Ext2.CreateWriteRead | krnl/fs/ext2.c:504-927 | In every reachable state, a file that is created, written and read gives back what was written, all of it if and only if the blocks it needs are free after the creation, and its directory maps the new name to it |
| IntrusiveList.Add | krnl/mem/kbuddy.c:5-10 | The block becomes the head of the list, links forwards and backwards |
| IntrusiveList.Remove | krnl/mem/kbuddy.c:13-19 | The block leaves the list wherever it is, the order of the others stays |
| IntrusiveList.Push | krnl/mem/kslab.c:27-32 | Among several lists over the same nodes only the named one changes, and its head is the pushed node |
| IntrusiveList.Detach | krnl/mem/kslab.c:18-24 | Likewise for removal, and the node is then on no list |
| Dyadic.Nested | krnl/mem/kbuddy.c:127-129 | Aligned blocks nest: one that begins inside a larger one ends inside it |
| Dyadic.BuddyMeans | krnl/mem/kbuddy.c:127-129 | Flipping bit k of an aligned offset moves to the other half of the enclosing block |
| BuddyTiles.BuddyIsHead | krnl/mem/kbuddy.c:123-133 | In every tiling the header that free inspects is that of a current block, never stale data |
| BuddyTiles.FreeRegion | krnl/mem/kbuddy.c:73-81 | With no free buddies left to merge, every wholly free aligned region lies in one free block |
| BuddyTiles.UniqueTiling | krnl/mem/kbuddy.c:110-148 | The live blocks determine the whole tiling: two pools with the same live blocks are equal |
| BuddyTiles.SplitTiled | krnl/mem/kbuddy.c:88-103 | A split keeps an exact tiling by aligned blocks |
| BuddyTiles.SplitCanonical | krnl/mem/kbuddy.c:88-103 | A split leaves no two free buddies of one order |
| BuddyTiles.MergeTiled | krnl/mem/kbuddy.c:136-142 | A merge keeps an exact tiling by aligned blocks |
| BuddyTiles.MergeCanonical | krnl/mem/kbuddy.c:136-142 | A merge leaves no two free buddies of one order |
| BuddyTiles.ReleaseCanonical | krnl/mem/kbuddy.c:146-147 | Putting a block back is canonical when its buddy is not a free block of the same order |
| Buddy.Init | krnl/mem/kbuddy.c:22-56 | The pool is partitioned into free blocks, each as large as its address and the rest of the pool allow, whatever the memory held, and no memory but their headers is written |
| Buddy.InitExact | krnl/mem/kbuddy.c:37-129 | The result of init is a canonical tiling for free exactly when the pool starts at a multiple of the largest block that fits in it |
| Buddy.Misaligned | krnl/mem/kbuddy.c:37-129 | On a pool of four pages at the second page of memory init lays down blocks of one, two and one pages; the buddy that free looks up for the last lies inside the second, where the header it reads is what the memory held before |
| Buddy.Alloc | krnl/mem/kbuddy.c:59-107 | It fails exactly for size 0, for sizes beyond the largest order, or when no aligned region of the smallest sufficient order is wholly free. Otherwise it cuts the block at the head of the list of the lowest order that has a free block and is no lower than needed: one block of the needed order at its start becomes live, every other free block stays as it was, and no other live block changes |
| Buddy.ExactFit | krnl/mem/kbuddy.c:73-103 | Where a free block of the needed order exists, one of those is taken whole and nothing is split |
| Buddy.NoneLeft | krnl/mem/kbuddy.c:73-81 | Empty lists from the target order on mean that no aligned region of that order is free anywhere |
| Buddy.Capacity | krnl/mem/kbuddy.c:62-70 | The block holds the request after its header exactly when size plus header does not wrap |
| Buddy.InspectedHead | krnl/mem/kbuddy.c:123-133 | The merge test succeeds exactly when the buddy is a free block of the same order |
| Buddy.Free | krnl/mem/kbuddy.c:110-148 | Exactly that block stops being live and the pool is fully coalesced; the free block that then holds it is the head of the list of its order. A null pointer or a free block changes nothing |
| Buddy.BackToStart | krnl/mem/kbuddy.c:22-148 | With nothing live the free blocks are exactly those that init made |
| Buddy.Allocator.constructor | krnl/mem/kbuddy.c:22-56 | An aligned pool starts canonical with nothing live |
| Buddy.Allocator.Malloc | krnl/mem/kbuddy.c:59-107 | Keeps the invariant of every run, and takes the block as stated |
| Buddy.Allocator.Release | krnl/mem/kbuddy.c:110-148 | Keeps the invariant, puts the coalesced block first on its list, and the last release restores the state after init |
| Buddy.Allocator.Scribble | krnl/mem/kbuddy.c:106-106 | Whatever the owner writes behind a live block's header is there, and the allocator is unaffected |
| Pmm.Alloc | krnl/mem/pmm.c:108-158 | The first free run in scan order is taken and leaves the free set, the cursor moves behind it, the counters stay exact and their sum constant; it fails exactly when every free run of that length straddles the cursor |
| Pmm.Straddled | krnl/mem/pmm.c:111-179 | Three pages, the first in use: after one page is taken and given back, a request for the two free pages fails |
| Pmm.Free | krnl/mem/pmm.c:160-179 | Exactly those pages join the free set, pages already free stay so, the counters stay exact and their sum constant; page 0 is never given back |
| Pmm.PageAllocator.constructor | krnl/mem/pmm.c:73-104 | The free count is the number of clear bits |
| Pmm.PageAllocator.Take | krnl/mem/pmm.c:108-158 | Over every run free plus used pages is the number of usable pages |
| Pmm.PageAllocator.Give | krnl/mem/pmm.c:160-179 | Over every run free plus used pages is the number of usable pages |
| VmmMap.PageOfExact | krnl/mem/vmm.c:55-58 | Two lower-half addresses use the same entry exactly when they lie in the same page |
| VmmMap.AllocPage | krnl/mem/vmm.c:40-41 | The first free page in the order of the rotating scan, or null exactly when none is free |
| VmmMap.GetNextLevel | krnl/mem/vmm.c:32-52 | The next table, made from a free page if missing and wanted; no translation of any address space changes, tables form a forest, pages are conserved |
| VmmState.HangTable | krnl/mem/vmm.c:44-49 | Hanging an empty table changes no translation |
| VmmState.PutLeaf | krnl/mem/vmm.c:72-72 | Writing an entry of a last table changes the translation of one page of one address space |
| VmmMap.Map | krnl/mem/vmm.c:54-78 | On success that page maps to the frame with the flags and no other page of any address space changes, nor any entry of a kernel half; it fails exactly when fewer pages are free than tables are missing, and then no page changes and no page is free; pages only move from the free set to tables |
| VmmMap.Unmap | krnl/mem/vmm.c:80-99 | That page maps to nothing and no other page changes, nor any entry of a kernel half; it reports whether there was a last table |
| VmmMap.PathRights | krnl/mem/vmm.c:44-49 | Every entry on the way to a mapped page is present, writable and open to user mode, so the last entry alone decides |
| VmmMap.VirtToPhys | krnl/mem/vmm.c:101-135 | Frame and offset of a mapped address, 0 otherwise |
| VmmDestroy.Create | krnl/mem/vmm.c:142-166 | A new address space that maps nothing below the kernel half and has the given entries in it; all others are unchanged |
| VmmDestroy.FreeBelow | krnl/mem/vmm.c:168-195 | The walk gives back every table below and every mapped page without the keep flag, and nothing else |
| VmmDestroy.Destroy | krnl/mem/vmm.c:197-202 | The free set gains exactly the tables, the top-level table and the pages mapped without the keep flag; every other address space translates as before |
| VmmCopy.CopyPage | krnl/mem/vmm.c:248-258 | A fresh page with the contents of the parent's, mapped at the same page of the child only, with exactly those flags of the parent's entry that are below bit 12 |
| VmmCopy.CloneLast | krnl/mem/vmm.c:248-258 | All pages of a last table are copied, or no page is free and the child lacks a page of the parent |
| VmmCopy.CloneTop | krnl/mem/vmm.c:228-261 | The child gets every table and page of the parent, or no page is free and it lacks one; no entry of a kernel half changes |
| VmmClone.Clone | krnl/mem/vmm.c:223-266 | It succeeds exactly when the free pages are at least one, plus one for each table and each mapped page of the parent. On success the child maps exactly the pages of the parent, each to a distinct page that was free, with equal bytes and exactly the flags of the parent below bit 12, it has the kernel half, and every other address space and page is unchanged; on failure everything is as before, and the free set too when no page of the parent has the keep flag |
| VmmClone.ChildRights | krnl/mem/vmm.c:248-258 | A page that the parent can read and write in user mode is one that the child can |
| VmmClone.TableCount | krnl/mem/vmm.c:228-246 | A clone in progress has at most as many tables as its parent, and fewer exactly when it lacks one |
| VmmClone.Restored | krnl/mem/vmm.c:168-266 | Destroying a finished or unfinished clone gives back everything but the copies of pages with the keep flag |
| VmmClone.CloneThenDestroy | krnl/mem/vmm.c:168-266 | Clone then destroy restores the free set exactly when the parent maps no page with the keep flag |
| Vmm.KeptPageLost | krnl/mem/vmm.c:54-266 | An address space with one page that has the keep flag, cloned and the clone destroyed: fewer pages are free than before |
| Vmm.AddressSpaces.MapPage | krnl/mem/vmm.c:54-78 | In every reachable state, mapping changes one page of one address space |
| Vmm.AddressSpaces.UnmapPage | krnl/mem/vmm.c:80-99 | In every reachable state, unmapping changes one page of one address space and no kernel half |
| Vmm.AddressSpaces.NewSpace | krnl/mem/vmm.c:142-166 | Creation adds an empty address space with the kernel half and keeps the forest |
| Vmm.AddressSpaces.CloneSpace | krnl/mem/vmm.c:223-266 | Cloning keeps the forest and all other address spaces, succeeds exactly when there are enough free pages, and each page of the child then has the bytes and the low flags of the parent's |
| Vmm.AddressSpaces.DropSpace | krnl/mem/vmm.c:197-202 | Destruction keeps the forest and all other address spaces |
| HeapBlocks.BytesTotal | krnl/mem/kheap.c:35-41 | Free and used bytes of a tiling add up to the heap |
| HeapBlocks.AllFree | krnl/mem/kheap.c:139-169 | All blocks free and no two neighbours free means one block |
| Heap.StatsTotal | krnl/mem/kheap.c:35-62 | The two counters always add up to the heap |
| Heap.Init | krnl/mem/kheap.c:24-43 | One free block, whatever the memory held |
| Heap.SplitBlock | krnl/mem/kheap.c:46-63 | The list stays an exact tiling with right links both ways and exact counters |
| Heap.RequiredExact | krnl/mem/kheap.c:69-70 | Rounding and the back pointer leave room for the request exactly when they do not wrap |
| Heap.Take | krnl/mem/kheap.c:66-91 | First fit: the first free block that is large enough, cut when enough is left |
| Heap.Malloc | krnl/mem/kheap.c:66-91 | It fails exactly for size 0 or when no free block is large enough; otherwise the payload is new, lies behind its back pointer at the start of what was the first free block that is large enough, and all others stay |
| Heap.AlignedAlloc | krnl/mem/kheap.c:94-108 | Likewise for an aligned payload, at the first aligned address behind the back pointer; also refused for alignments that are no power of two |
| Heap.PowerOfTwoMeans | krnl/mem/kheap.c:95-96 | The test on the alignment holds exactly for the powers of two |
| Heap.DisjointPayloads | krnl/mem/kheap.c:81-107 | Live payloads, plain and aligned, with their back pointers never overlap |
| Heap.Release | krnl/mem/kheap.c:145-168 | The block is joined with a free successor and a free predecessor; no two neighbours are free and no other used block changes |
| Heap.Free | krnl/mem/kheap.c:139-169 | Exactly that payload is no longer live |
| Heap.NothingLive | krnl/mem/kheap.c:139-169 | When nothing is live the heap is one free block |
| Heap.KernelHeap.Alloc | krnl/mem/kheap.c:66-91 | Keeps blocks, counters and payloads in order over every run, and takes the first block that is large enough |
| Heap.KernelHeap.AllocAligned | krnl/mem/kheap.c:94-108 | Keeps blocks, counters and payloads in order over every run |
| Heap.KernelHeap.Dealloc | krnl/mem/kheap.c:139-169 | Likewise, and freeing the last payload leaves one block |
| Heap.KernelHeap.Scribble | krnl/mem/kheap.c:85-85 | What the owner writes inside a payload means nothing to the heap, whether it then reads as a header or a block pointer there, wholly or partly |
| Slab.Dimension | krnl/mem/kslab.c:85-114 | The fewest of 1, 2, 4, 8 or 16 pages that hold an object, as many objects as fit; refused exactly for objects that do not fit in 16 pages |
| Slab.ObjectsApart | krnl/mem/kslab.c:150-159 | Objects lie behind the header, inside the slab, and do not overlap |
| Slab.MaskFinds | krnl/mem/kslab.c:208-209 | Masking an object's address finds its slab exactly when the slab starts at a multiple of its size |
| Slab.LiveApart | krnl/mem/kslab.c:169-226 | Live objects of all slabs never overlap |
| Slab.ChainBound | krnl/mem/kslab.c:191-193 | A free chain is no longer than the objects of its slab, and shorter when one is live |
| Slab.Thread | krnl/mem/kslab.c:153-163 | The chain of a new slab threads all its objects |
| Slab.NewSlab | krnl/mem/kslab.c:138-187 | A new slab becomes the head of the partial list with all its objects to give, the first one first, and changes no other slab |
| Slab.Alloc | krnl/mem/kslab.c:169-202 | It fails exactly when every object of every slab is live and there is no page; otherwise an object that was not live becomes live, the first of the chain of the slab that heads the partial list, or else the free list, or else is new; that slab then heads the list of its count. Chains hold exactly the objects that are not live and every slab is on the list of its count |
| Slab.Free | krnl/mem/kslab.c:205-226 | Exactly that object is no longer live and it becomes the first of its chain; a slab that got its first or last object back becomes the head of the list of its count, a one-object slab of the partial list |
| Slab.ObjectCache.New | krnl/mem/kslab.c:169-202 | Keeps chains, lists and live objects in order over every run, and takes the object as stated |
| Slab.ObjectCache.Delete | krnl/mem/kslab.c:205-226 | Keeps chains, lists and live objects in order over every run, and puts the object first in its chain |
| Slab.ObjectCache.Scribble | krnl/mem/kslab.c:212-212 | What the owner writes to a live object is there and does not disturb the chains |
| Ring.RingBuffer.constructor | krnl/util/ring_buffer.c:13-29 | Empty, with the size rounded up to whole pages |
| Ring.RingBuffer.Write | krnl/util/ring_buffer.c:32-51 | The ring holds the newest bytes of what it held followed by the data |
| Ring.RingBuffer.Read | krnl/util/ring_buffer.c:54-65 | The oldest bytes leave the ring in order and the rest stays |
| Ring.NoLoss | krnl/util/ring_buffer.c:44-48 | The overwriting write is an append exactly when the data fits in the free space |
| Socket.SysBind | krnl/net/socket.c:135-159 | It succeeds exactly for an unbound socket, a path nobody has, and a table with a free slot |
| Socket.SocketClose | krnl/net/socket.c:69-82 | The socket is in no slot; where connections are exclusive it is nobody's peer, and they stay exclusive |
| SocketSound.TurnAppends | krnl/net/socket.c:53-65 | A turn of the write loop gives the overwriting ring no more than it has room for, so it appends |
| SocketSound.WriteTurnKeeps | krnl/net/socket.c:49-67 | A turn of any of the writers of a socket keeps rings, queues and the bytes of every call |
| SocketSound.ReadKeeps | krnl/net/socket.c:35-47 | A read by any thread does; `SocketCalls.ReadDelivers` says what it delivers |
| SocketSound.ConnectKeeps | krnl/net/socket.c:173-195 | Joining a listener's queue does, also a second time |
| SocketSound.AcceptKeeps | krnl/net/socket.c:204-253 | Accepting does, also when it fails half way, and also when the listener was connected while the thread waited |
| SocketSound.CloseKeeps | krnl/net/socket.c:69-82 | Closing does |
| SocketSound.StepSound | krnl/net/socket.c:35-253 | Every step of every call of every thread keeps rings, queues, tables and writers consistent |
| SocketCalls.ReadDelivers | krnl/net/socket.c:35-47 | A read on a connected socket delivers the oldest bytes of its ring, as many as were asked for or all there are, and they leave the ring; nothing else changes |
| SocketCalls.TurnDelivers | krnl/net/socket.c:53-65 | A turn of the write loop moves the next bytes of the call, as many as are left or as the other end has room for, to the end of that ring; nothing else changes |
| SocketCalls.WriteBegins | krnl/net/socket.c:49-52 | A write is under way from its first byte exactly on a connected socket with a peer, and changes no socket |
| SocketCalls.WriteEnds | krnl/net/socket.c:54-66 | A write ends exactly when all its bytes are down or the other end is closed |
| SocketCalls.Pumped | krnl/net/socket.c:35-67 | In any state reached, as many rounds of one turn and one read as bytes are left, and one more, finish the write and empty the ring |
| SocketCalls.Delivered | krnl/net/socket.c:35-67 | After any guarded run with a write under way to an open socket, those rounds complete the write, and then the other end has received all that was sent to it, the bytes of that call whole and in order |
| SocketCalls.ReadDrains | krnl/net/socket.c:35-47 | After any guarded run, one read of at least the ring leaves everything received that was sent |
| SocketCalls.SocketMade | krnl/net/socket.c:91-108 | A new socket is unbound, without a peer, with an empty ring and an empty queue; the others are unchanged |
| SocketCalls.ListenMeans | krnl/net/socket.c:161-171 | Exactly a bound socket starts to listen, and nothing else changes |
| SocketCalls.ConnectMeans | krnl/net/socket.c:173-195 | With the socket of that path in the table: exactly an unbound client of a listening socket with fewer than 15 in its queue becomes the last of that queue and waits; otherwise nothing changes |
| SocketCalls.ConnectNobody | krnl/net/socket.c:181-189 | Without such a socket nothing changes |
| SocketCalls.AcceptPairs | krnl/net/socket.c:204-253 | With an empty queue nothing changes; otherwise the first client of the queue leaves it, it and the new socket are connected to each other, no third socket changes, and a thread waiting on that client can go on |
| SocketCalls.ConnectReturns | krnl/net/socket.c:197-201 | A connect returns exactly when its socket is no longer unbound |
| SocketCalls.CloseMeans | krnl/net/socket.c:69-82 | The socket is closed and without a peer, its slots are empty and no other slot changes, its peer forgets it, and no other socket changes |
| SocketTidy.StepTidy | krnl/net/socket.c:135-253 | Where no client is in two queues and peers point at each other, a step keeps that if and only if it is not a connect that joins a queue, or a bind that succeeds, of a socket already in a queue |
| Socket.RunSound | krnl/net/socket.c:35-253 | Every interleaving of steps keeps rings, queues, tables and writers consistent |
| Socket.RunTidy | krnl/net/socket.c:35-253 | Connections are exclusive in all states of a run if and only if each of its steps meets that guard |
| Socket.RingsConserve | krnl/net/socket.c:35-67 | In every reachable state what was put into a ring is what was read from it followed by what is in it |
| Socket.NothingLost | krnl/net/socket.c:35-67 | In every state of a guarded run the bytes written on one end are those read at the other followed by its ring |
| Socket.PeersSymmetric | krnl/net/socket.c:240-244 | In every state of a guarded run peers point at each other |
| Socket.FirstComeFirstServed | krnl/net/socket.c:191-217 | In every reachable state the sockets taken from a queue are the first that asked, in order |
| Socket.WriteComplete | krnl/net/socket.c:54-66 | A write that ends has put exactly its bytes, in order, on the socket, whoever else writes there |
| Socket.Contiguous | krnl/net/socket.c:54-66 | When no other call wrote meanwhile, they stand together at the end |
| Socket.ConnectedTwice | krnl/net/socket.c:179-244 | Two threads connect one socket and both are accepted: the first accepted socket points at a client whose peer is the second |
| Socket.BoundAndConnected | krnl/net/socket.c:142-244 | A socket bound while it is being connected ends up connected and in the table |
| Socket.FailedAccept | krnl/net/socket.c:216-234 | An accept that fails behind its wait changes something exactly when the queue is not empty; a thread is then stuck on its first client exactly when that is unbound and queued nowhere else, as it is where connections are exclusive |
| Socket.ClosedListener | krnl/net/socket.c:69-82 | After a listener is closed a thread is stuck on a client of its queue exactly when that is unbound and in no other queue, as it is where connections are exclusive |
| Socket.StuckStep | krnl/net/socket.c:179-244 | A step leaves such a client blocked if and only if it is not another connect that joins a queue, or a bind that succeeds, of that same socket |
| Socket.StuckRun | krnl/net/socket.c:35-253 | In every run without such a step the client stays blocked |
| Socket.DroppedClient | krnl/net/socket.c:191-234 | A run from the empty state to such a client |
| Socket.DeafListener | krnl/net/socket.c:69-195 | A run from the empty state to a client left by a closed listener |
| Sched.Append | krnl/task/sched.c:105-113 | The new thread is last in the one cycle, with a number never used before |
| Sched.AddThread | krnl/task/sched.c:45-116 | The new thread is running, last in the cycle, with the next number, and a child of the running thread; every other thread is the same |
| Sched.Fork | krnl/task/sched.c:229-322 | A child of the running thread, last in the cycle with the next number; nothing without a stack or the first block of memory, and only a used-up number when a later allocation fails |
| Sched.Exit | krnl/task/sched.c:151-154 | The running thread becomes a zombie and stays in the cycle; no other thread changes |
| Sched.Kill | krnl/task/sched.c:425-448 | Exactly the thread of that number becomes a zombie, unless it already is one |
| Sched.Waitpid | krnl/task/sched.c:172-227 | It reports that there is no child exactly when no thread has that number and the caller as its parent, reaps exactly when that child is a zombie, and waits exactly when it lives. Exactly the reaped thread leaves the cycle, with its exit code, and it was not reaped before; otherwise nothing changes |
| Sched.Tick | krnl/task/sched.c:118-149 | The first running thread after the current one runs next; when no thread is running the successor of the current one is picked |
| Sched.Fair | krnl/task/sched.c:118-149 | While the cycle is fixed, a thread that stays running is picked within as many ticks as there are threads, whatever happens to the others between ticks |
| Sched.Scheduler.Wait | krnl/task/sched.c:172-227 | Likewise in every reachable state; over every run each child is reaped at most once and by its parent |
| Sched.Scheduler.Switch | krnl/task/sched.c:118-149 | A switch changes no thread and keeps the cycle |
| HashMap.HashStr | krnl/util/hashmap.c:19-24 | The loop computes the FNV-1a hash |
| HashMap.FnvValues | krnl/util/hashmap.c:19-24 | On the empty string, "a" and "foobar" it has the published values |
| HashMap.Rehash | krnl/util/hashmap.c:40-60 | The map is the same for every new capacity |
| HashMap.Insert | krnl/util/hashmap.c:112-117 | A new key in the bucket of its hash adds one binding |
| HashMap.Delete | krnl/util/hashmap.c:143-154 | Unlinking an entry drops one binding |
| HashMap.StringMap.Set | krnl/util/hashmap.c:98-119 | Refines map update through any number of rehashes, each of which doubles the buckets; fails exactly for a new key without memory |
| HashMap.StringMap.Get | krnl/util/hashmap.c:121-128 | The value of the key, or null |
| HashMap.StringMap.Has | krnl/util/hashmap.c:130-137 | Whether the key is in the map |
| HashMap.StringMap.Remove | krnl/util/hashmap.c:139-156 | Refines map removal; the size stays the number of keys |
| Sha256.ProcessBlock | krnl/util/sha256.c:34-58 | The loops compute the compression function of section 6.2.2 of FIPS 180-4 |
| Sha256.FoldConcat | krnl/util/sha256.c:70-92 | Hashing whole blocks in two parts is hashing them in one |
| Sha256.Tail | krnl/util/sha256.c:73-89 | The one or two last blocks are the rest of the message with the padding |
| Sha256.LengthExact | krnl/util/sha256.c:80-80 | The 64-bit length is right exactly below 2^61 bytes |
| Sha256.PaddingInjective | krnl/util/sha256.c:73-89 | Different messages have different paddings |
| Sha256.Hash | krnl/util/sha256.c:60-100 | The digest is the fold of the compression function over the padding of section 5.1.1 of FIPS 180-4 for every message below 2^61 bytes |
| Sha256Abc.AbcDigest | krnl/util/sha256.c:4-58 | The fold over the padding of "abc" is the digest that FIPS 180-4 gives for it, through all 64 rounds and constants |
| Sha256Abc.HashAbc | krnl/util/sha256.c:60-100 | So the loops return that digest |

## Left out

- Device and memory layer of ext2: block reads and writes always succeed, `kmalloc` always succeeds, and the disk is below 4 GiB, so that byte offsets fit in 32 bits.
- ext2 bitmaps, group descriptors and the inode table are fields of the model, not blocks of the disk; bitmaps are sequences of bits, without the packing into bytes.
- ext2 groups are numbered from a first data block of 0, or with a layout in which the group arithmetic is exact.
- One copy of each inode: the node cache, `ext2_close`, `write_inode` to disk, and several nodes for one inode.
- mkdir, rmdir, symlinks, readlink, stat, timestamps and permissions of ext2; directory counters of groups.
- Ext2Tree.InodeSetBlock: sets a logical block that is a hole, as both callers do; the sector count that they add for the data block is part of the model's step. `Ext2Replace.ReplaceBlock` is the other case, in which no caller adds sectors.
- Ext2File.Write: offset plus length stays below 2^32.
- Ext2Contents.Read: reads whose offset plus size wraps around need a block size that divides 2^32, as every power of two does.
- Ext2Names.Create: the directory size plus one block stays below 2^32.
- Ext2Unlink.Unlink: the name's target is an inode in use other than the directory itself. That it is in use holds in every state of `Ext2.FileSystem`; unlinking "." is not covered, since the copy of the inode that the open directory holds would then differ from the one on disk.
- Ext2.FileSystem.RemoveFile: the name does not lead to the directory itself, for the same reason.
- Ext2Unlink.Rename: the victim is an inode in use other than the directory itself; directories as victims lose a link like files.
- Ext2.FileSystem.RenameFile: the new name does not lead to the directory itself, for the same reason.
- Ext2.FileSystem.WriteFile: offset plus length stays below 2^32.
- Update in place, aliasing and buffers: ext2, the allocators, page tables and the scheduler work on values that stand for memory; the order of writes inside one operation and crashes are not visible.
- Buddy.Free: the pointer is null or the head of a current block; freeing an address inside a block is not covered, and the pool size is a whole number of 64-byte units.
- Heap.Malloc: sizes for which rounding wraps are excluded; `Heap.RequiredExact` gives the bound. An uninitialised heap, `khcalloc` and `khrealloc` are not modelled.
- Heap.AlignedAlloc: sizes for which size plus alignment wraps are excluded in the same way.
- Heap.Free: the pointer is null or a live payload.
- Pmm.Free: the range lies inside the bitmap. The used counter is an integer and may fall below zero when reserved pages are given back. Reading the boot memory map is not modelled.
- VmmMap.Map: lower-half addresses, flags outside the frame bits, no huge pages, no TLB flush. The kernel half is an argument of `VmmDestroy.Create`.
- VmmDestroy.Destroy: no page given back is a table of another address space, and pages given back lie inside the bitmap.
- VmmClone.Clone: mapped pages of the parent are in use; contents of frames used as tables are not copied as data.
- Page 0 is in use in the model of page tables, because its address is the null pointer.
- Slab.NewSlab: the pages for a slab begin at a multiple of the slab size, as the mask in `kmem_cache_free` needs; the source does not check it.
- Slab.Free: the object is live; slabs are aligned to their size, and the page allocator's answer is an argument.
- Socket memory, file descriptors and argument checks of the socket calls; the step of accept is its part behind the test that the socket listens and the wait. Closing frees the socket's memory, so a socket is closed only when no thread is blocked in it, no write on it or to it is under way, and no queue holds it; what the code does with freed memory is not modelled.
- Context switches, stacks, address spaces, credentials and file descriptors of threads; thread numbers do not wrap at 2^64.
- HashMap.StringMap.Set: capacities do not wrap at 2^32; chains are sequences, not linked entries; clear, destroy and iteration are left out.
- Sha256.Hash: the hexadecimal form of the digest.
- `krnl/mm.c` dispatch, list.c, string routines, drivers, interrupts, ELF loading, tty and the other file systems.
