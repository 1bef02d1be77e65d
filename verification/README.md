# DvivonOS in Dafny

A model of the stateful cores of DvivonOS, a 32-bit kernel, and proofs about them.

- **ext2.** The device is a sequence of byte blocks; superblock, group descriptors, bitmaps, inode
  table, indirect blocks and directory blocks are raw bytes on it, read and written as the code
  does. `Vol` holds the device and the in-memory copies; the ghost map `owner` says through which
  pointer slot each block is held. `FsOK` is the invariant of a mounted volume, kept by every
  operation on any inode; `VolOK` is that of a sound one: sound books, single ownership, well-formed
  directories counted in their groups, a name space without cycles or dangling entries, files that
  end in zeros. The code never asks whether an inode is a directory before it makes a name in it or
  writes to it, so `VolOK` has exact conditions.
- **Kernel heap.** Words in an array-like sequence with headers, footers and an intrusive list.
- **Paging.** Physical memory is a map of frames of 1024 words; every edit goes through the
  recursive windows by the hardware walk, which also decides what user mode may reach.
- **Physical pages, ATA protocol, paths, scheduler.** A bitmap, interleaved state machines, byte
  strings, and a heap-allocated ring.

Reading order: `Words`, `Arith`, `Bytes`; then `BlockTree`, `Layout`, `Metadata`, `Volume`,
`FsState`, `BlockMap`, `InodeTable`, `FileData`, `FileOps`, `FileFree`, `Truncate`; directories in
`EntryLists`, `DirBlock`, `RecordScan`, `Directory`, `DirOps`, `DirAdd`, `NameOps`, `SubDirs`; the
name space in `Tree`, `Runs`, `Soundness`, `Restore`, `Histories`, `Walks`; the counterexamples on
`Sample` and `SampleTree`, in `LostBlocks`, `Scribbles` and `Wrapped`; `Mount`; then `HeapLayout`,
`Heap`, `Kmalloc`; `Paging`, `Spaces`; `Pmm`; `Ata`, `AtaWrite`, `AtaRead`; `Paths`; `Scheduler`.
`dafny verify dfyconfig.toml` checks everything.

## Model

| member | source | states |
|---|---|---|
| Volume.AllocBlock | src/fs/ext2/block.c:275-320 | the lowest free block on the volume is taken, a data block, and nothing but the allocator's own blocks changes, with both counts down by one and the device copies equal to memory; 0 exactly when no block is free, and then nothing changed |
| Volume.FreeBlock | src/fs/ext2/block.c:327-348 | for every block in range, what it does to bit and counts; the books stay sound if and only if the block was a data block in use |
| Volume.AllocInode | src/fs/ext2/inode.c:237-270 | the same for the lowest free inode number; 0 exactly when every inode is in use |
| Volume.FreeInode | src/fs/ext2/inode.c:276-297 | the books stay sound if and only if the inode was in use |
| Volume.FreeUndoesAlloc | src/fs/ext2/block.c:275-348 | free after alloc: the same blocks and inodes in use, the same counts in every group and in the superblock, every data block untouched |
| Volume.FreeUndoesAllocInode | src/fs/ext2/inode.c:237-297 | the same for inodes |
| Volume.GivenTwice | src/fs/ext2/block.c:340-347 | freeing what is already free breaks the agreement of bitmap and counters |
| Volume.GivenReserved | src/fs/ext2/block.c:327-348 | freeing a metadata block breaks the books |
| Metadata.StepKeeps | src/fs/ext2/block.c:303-311 | one bit flipped, both counters adjusted and both flushed: every group count is again its number of clear in-range bits, the superblock count their sum, the device copies equal the memory copies, and no other byte of superblock or descriptors changed |
| Metadata.CountFields | src/include/fs/ext2/ext2.h:53-115 | on a sound volume bytes 12, 14 and 16 of each descriptor, low byte first, are the clear in-range bits of its two bitmaps and its directories, bytes 12 and 16 of the superblock the sums |
| Metadata.FlushSuper | src/fs/ext2/superblock.c:29-45 | the superblock read back from byte 1024 is what was written, for all three block sizes, and no other byte of the device changed |
| Metadata.FlushDesc | src/fs/ext2/superblock.c:51-66 | the descriptor read back is what was written, and the descriptors of all other groups are unchanged |
| Layout.DescAddress | src/fs/ext2/superblock.c:51-66 | the descriptors lie on the device as one array of 32 bytes each, from the block behind the first data block on |
| Mount.ReadSuperblock | src/fs/ext2/superblock.c:77-82 | the sector-granular read finds the superblock whatever the block size |
| Mount.ReadGroupDescs | src/fs/ext2/superblock.c:122-147 | the row-by-row read returns the descriptor of every group |
| Mount.Remount | src/fs/ext2/superblock.c:172-230 | reading everything back from the device yields the in-memory superblock and descriptors |
| Mount.GroupsCountRight | src/fs/ext2/superblock.c:200-202 | the group count is right if and only if the rounded-up sum fits 32 bits |
| BlockMap.ResolveBlockNum | src/fs/ext2/block.c:129-197 | the four-level walk through indirect blocks returns what the pointer forest holds at that position |
| BlockMap.AssignBlockNum | src/fs/ext2/block.c:208-264 | a map update: the new block at that position, every other position of every file as before, a displaced block left without an owner; the slots that hold a block afterwards are those before, that of the position and those above it; it succeeds if and only if the position is below triple indirection and there are as many free blocks as indirect ones are missing on the way to it; on failure it keeps exactly one new block if it had one for the doubly indirect root and none for the level below, and none otherwise |
| BlockMap.ClearedOK | src/fs/ext2/block.c:208-264 | replacing a mapped block: without the displaced pointer the volume is sound, with a hole at that slot only |
| BlockTree.OwnsAttached | src/fs/ext2/block.c:208-264 | hanging a fresh, empty block on an empty slot of any level keeps single ownership |
| BlockMap.DataSlotInjective | src/fs/ext2/block.c:129-197 | no two positions of any files share a pointer slot |
| InodeTable.InodeAddress | src/fs/ext2/inode.c:51-75 | records that divide a block lie in the table as one array: record n of a group at n times the record size behind the start of its table |
| InodeTable.InodeApart | src/fs/ext2/inode.c:51-110 | two inode records in one table block do not overlap |
| InodeTable.WriteInodeRaw | src/fs/ext2/inode.c:81-110 | the record read back is the one written; all other records and every byte of the device outside that record are unchanged |
| Truncate.RecordFields | src/include/fs/ext2/ext2.h:118-131 | the fields of a record by their bytes, low byte first |
| FileData.Read | src/fs/ext2/ext2_ops.c:75-115 | every returned byte is the file's byte at its 32-bit position, holes zero, with the size clamp as coded |
| FileData.WriteLoop | src/fs/ext2/ext2_ops.c:135-171 | after n bytes: exactly those bytes of exactly that file changed, exactly the blocks they reach into are mapped, the free count fell by the blocks gained, i_blocks rose by the data blocks gained; it stops short only at a hole it cannot fill |
| FileOps.Write | src/fs/ext2/ext2_ops.c:122-184 | the same with size and record written back; no byte of the record changes but those of size, i_blocks and block pointers, whatever else it holds |
| FileOps.WriteRefines | src/fs/ext2/ext2_ops.c:122-184 | the file is the old contents zero-padded to offset with the bytes laid over, and its tail stays zero, also after a short write, if and only if offset + n stays below 4 GiB; so always when offset + count does, and for a full write only then |
| FileOps.WriteFrames | src/fs/ext2/ext2_ops.c:122-184 | every other file has the same contents and still ends in zeros |
| FileOps.ReadRefines | src/fs/ext2/ext2_ops.c:75-115 | read returns the slice of the contents if and only if it starts past the end or offset + count stays below 4 GiB |
| FileOps.WriteThenRead | src/fs/ext2/ext2_ops.c:75-184 | what a read of the range just written returns is what was written if and only if the write did not wrap or the file already reached past its offset |
| Wrapped.WriteCanWrap | src/fs/ext2/ext2_ops.c:140-178 | two bytes at offset 0xFFFFFFFF of a two-byte file on a sound volume: the write runs to its end and the second byte replaces the first of the file |
| Wrapped.ReadCanWrap | src/fs/ext2/ext2_ops.c:75-115 | the same file read from its second byte on for 2^32 - 1 bytes: all of them come, and they are not the rest of the file |
| FileFree.DeleteInode | src/fs/ext2/inode.c:189-226 | the inode and its direct and singly indirect blocks become free, its record on the device is zeros, no other file is touched |
| FileFree.DeleteLeaks | src/fs/ext2/inode.c:189-226 | all blocks of the file come back if and only if it has no doubly or triply indirect tree |
| Wrapped.DeleteCanLeak | src/fs/ext2/inode.c:189-226 | a sound volume on which unlinking a file is not lossless |
| Truncate.TruncateInode | src/fs/ext2/block.c:358-401 | for any file and any new size: the blocks and bytes the file has afterwards, as in the rows below; its size is the new one, i_blocks covers that size rounded up to blocks, no other byte of the record changes but the block pointers; ownership stays sound and all other files are untouched |
| Truncate.BlockCountIs | src/fs/ext2/block.c:363-364 | the code's block count is the number of blocks that start in front of the end as long as rounding the size up stays below 2^32, and 0 otherwise |
| Truncate.CutMaps | src/fs/ext2/block.c:366-395 | for any file: exactly these positions become holes, all others keep their block: not in front of the new end, and direct and in front of the old end, or singly indirect in a file that has such blocks |
| Truncate.CutExact | src/fs/ext2/block.c:358-401 | the file has the blocks in front of its new end and no others if and only if nothing was mapped where the cut goes wrong: behind the new end and not reached, or in front of it when rounding overflows |
| Truncate.CutKeeps | src/fs/ext2/block.c:358-401 | every byte in front of the new end is as it was if and only if newSize + bs - 1 stays below 2^32 or the blocks the cut then reaches held nothing but zeros there |
| Truncate.CutFrees | src/fs/ext2/block.c:366-395 | the blocks given back are the data blocks at those positions, and the indirect block if it goes |
| Truncate.CutCounts | src/fs/ext2/block.c:358-401 | the free count rises by exactly those |
| Truncate.CutTail | src/fs/ext2/block.c:358-401 | bytes past the new size read as zero if and only if those in blocks the cut does not reach already did |
| Wrapped.CutCanStay | src/fs/ext2/block.c:358-401 | a file on a sound volume that has a block left after any truncation to nothing |
| Wrapped.CutCanShow | src/fs/ext2/block.c:358-401 | a file on a sound volume that has a byte behind its end after any truncation to one byte |
| Wrapped.CutCanLose | src/fs/ext2/block.c:363-372 | a two-byte file on a sound volume that loses its first byte to any truncation to 0xFFFFFFFF bytes |
| DirBlock.FindInBlock | src/fs/ext2/directory.c:96-112 | the first live record of that name, or none |
| RecordScan.AddInBlock | src/fs/ext2/directory.c:167-204 | on a block of any bytes, as long as the walk stays inside it: whether it finds a place, and the bytes of the block with the record put there |
| RecordScan.ScanRecords | src/fs/ext2/directory.c:167-204 | on a chain of aligned records the walk stays inside, finds a place if and only if some record has room, and leaves a chain in which exactly one live entry is inserted and the others keep order and contents: the first record with room is filled if dead and split if live, every other record keeps its bytes |
| RecordScan.ScanDiffers | src/fs/ext2/directory.c:174-203 | on bytes that end in zeros a walk that finds a place changes a byte in front of them |
| DirBlock.RemoveInBlock | src/fs/ext2/directory.c:260-283 | the block stays a chain; exactly the first match goes: the record before it takes its length over, or it loses its inode number if it is the first, and every other record keeps its bytes |
| DirBlock.ParseFlat | src/fs/ext2/directory.c:60-64 | parsing undoes laying records end to end |
| DirBlock.DotBlock | src/fs/ext2/directory.c:401-419 | the block of a new directory byte by byte: "." in 12 bytes, ".." in the rest, both of type 2, and otherwise zeros |
| DirOps.FindDirEntry | src/fs/ext2/directory.c:75-118 | the first entry of that name over all blocks of the directory |
| DirOps.DirModeIs | src/include/fs/types.h:15-24 | a mode is that of a directory if and only if it is at least 0x4000 and below 0x5000 |
| DirAdd.AddDirEntry | src/fs/ext2/directory.c:143-235 | for any inode: it succeeds if and only if the inode number is not 0, the name has at most 255 bytes, and a block has room or the next position can be mapped, which shows beforehand; then exactly the bytes of the record are in the first block with room or in a block behind the last, and in a directory that stays below 4 GiB that is one entry more in the entry list; a failed add leaves every file as it was and gains one block exactly when the inode is cramped |
| DirAdd.DirContained | src/fs/ext2/directory.c:157-204 | in a directory the walk always stays inside the block buffer, and a block is full if and only if it is a hole or no record has room |
| DirAdd.EntryDiffers | src/fs/ext2/directory.c:143-235 | an entry made in a file that ends in zeros always changes the contents of that file |
| DirOps.RemoveDirEntry | src/fs/ext2/directory.c:241-288 | the entry list without the first match |
| NameOps.Create | src/fs/ext2/directory.c:347-371 | under any inode: it succeeds if and only if an inode is free and the entry can be added; then a fresh inode, the bytes of its entry in the parent, in a directory below 4 GiB one entry more, and a record of type 8 with the low twelve bits of the mode, one link, no bytes, no blocks and zeros in the rest; otherwise nothing but, exactly when foreseen, one block gained; no byte of the parent's record changes but those of size, i_blocks and block pointers |
| NameOps.Unlink | src/fs/ext2/directory.c:458-483 | succeeds if and only if the name stands for a file; its entry goes, and with the last link the file; a file that keeps a link keeps its record but for the link count |
| SubDirs.Mkdir | src/fs/ext2/directory.c:378-452 | under any inode: it succeeds if and only if an inode and a block are free and with one block less the entry can be added; then a directory holding "." and "..", the bytes of its entry in the parent, link and directory counts up by one, and a record of type 4 with the low twelve bits of the mode, two links, one block and its sectors and zeros in the rest; all undone when naming it fails |
| SubDirs.Rmdir | src/fs/ext2/directory.c:489-552 | succeeds if and only if the name stands for a directory with nothing but its dots; its inode and block are free again, the parent's link count and the group's directory count are one lower, the rest of the parent's record is as it was |
| Restore.CreateThenUnlink | src/fs/ext2/directory.c:347-483 | entry list, all other files, inode counts and directory counts are back, and the parent's record but for what growing changed; the free count is down by exactly the blocks the parent grew by |
| Restore.MkdirThenRmdir | src/fs/ext2/directory.c:378-552 | the same where each group's directory count is the number of its directories, which every run keeps |
| Tree.Reachable | src/fs/ext2/directory.c:378-552 | in a sound name space every directory hangs off the root |
| Soundness.WriteSound | src/fs/ext2/ext2_ops.c:122-184 | a write to any inode in use leaves a sound volume sound if and only if it goes to a file and lays nothing but zeros behind its end, or to a directory whose blocks, overlaid, still spell directory records and a sound name space |
| Soundness.CreateSound | src/fs/ext2/directory.c:347-371 | a file made in a directory leaves the volume sound if and only if its name is not "." or ".." and the directory stays below 4 GiB |
| Soundness.MkdirSound | src/fs/ext2/directory.c:378-452 | the same for a directory made in a directory |
| Soundness.OverflowBreaks | src/fs/ext2/directory.c:217-234 | a directory that grows to 4 GiB has no entry left |
| Histories.StepKeeps | src/fs/ext2/directory.c:347-552 | create, mkdir, unlink, rmdir and write each keep a volume sound under the conditions `Legal` names, which no caller checks; metadata and single ownership are part of every step, legal or not |
| Histories.UsualCase | src/fs/ext2/directory.c:347-452 | names in directories need nothing more for that walk to stay inside its buffer, and writes to files below 4 GiB are legal |
| Histories.StepSpares | src/fs/ext2/directory.c:143-235 | a create or mkdir that succeeds leaves the contents of every file as they were if and only if its parent is a directory |
| Histories.RunKeeps | src/fs/ext2/directory.c:347-552 | over any run of such operations every state is sound, the directory counts included |
| Histories.RunFormat | src/fs/ext2/superblock.c:29-66 | over any run no byte of the superblock or of a group descriptor changes but those of the counts |
| Histories.OwnedOnce | src/fs/ext2/block.c:208-348 | after every step, legal or not, a block is held by one slot only, is marked in use, and is no metadata block |
| Histories.StepBlocks | src/fs/ext2/directory.c:143-235 | on a sound volume free count plus owned blocks never grows, and stays the same if and only if the operation is lossless, which shows beforehand; the root, whose inode stays in memory, loses nothing to a failed add |
| Histories.RunBlocks | src/fs/ext2/inode.c:189-226 | over any run the free count moves by exactly the blocks gained and released if and only if every operation was lossless |
| Histories.Apply | src/fs/ext2/directory.c:347-552 | the methods make exactly the steps the lemmas speak of, on any inode in use, with the root's inode kept in memory and every other read and dropped |
| LostBlocks.AddsCanLose | src/fs/ext2/directory.c:207-216 | sound volumes with a directory below the root on which a create with two blocks left, and a mkdir with three, are not lossless |
| LostBlocks.AddCanOverflow | src/fs/ext2/directory.c:217-234 | a sound volume with a directory one block short of 4 GiB: the create succeeds, and whatever it leaves is not sound |
| Scribbles.AddsCanScribble | src/fs/ext2/directory.c:347-452 | a sound volume with an empty file: a create and a mkdir below it succeed, and whatever they leave, some file reads differently |
| Scribbles.AddCanDouble | src/fs/ext2/directory.c:347-371 | on the same volume a create of "." or ".." in the root succeeds, and whatever it leaves is not sound |
| Scribbles.WriteCanBreak | src/fs/ext2/ext2_ops.c:122-184 | twelve zeros written to the root of a sound volume: whatever that leaves is not sound |
| Wrapped.AddCanDisplace | src/fs/ext2/directory.c:207-216 | a sound volume with an empty file that has a block: a create below it succeeds and is not lossless |
| Paths.WholeNames | src/fs/vfs/dentry.c:91-101 | the walk sees the names between the slashes if and only if none is longer than 255 bytes |
| Paths.SplitComposes | src/lib/fs.c:28-57 | the components of a path are those of its parent and the last name |
| Paths.SplitPath | src/lib/fs.c:28-57 | succeeds if and only if the path is absolute, has a last component, and both parts fit |
| Walks.WalkComposes | src/fs/vfs/dentry.c:82-115 | walking one name more is looking it up where the others lead |
| Walks.Vfs.Put | src/fs/vfs/inode.c:56-68 | one reference less; the inode goes with the last |
| Walks.Vfs.Lookup | src/fs/ext2/directory.c:124-136 | a new inode with one reference for what the volume's name space holds under that name |
| Walks.Vfs.WalkRelative | src/fs/vfs/dentry.c:82-115 | returns what the volume's name space holds at that path; every inode on the way is released |
| Walks.Vfs.Walk | src/fs/vfs/dentry.c:123-145 | the same from the root, whose count is unchanged unless it is returned |
| Walks.Vfs.ResolveParent | src/lib/fs.c:64-78 | the whole path leads to what the name stands for in the returned directory |
| Kmalloc.Allocator.Kmalloc | src/kernel/memory/heap-allocator.c:104-136 | the heap stays exactly tiled and the free list holds exactly the free blocks; the blocks in use are those before and the one handed out, which was none of them and fits; it is the first on the list that is long enough, cut to size when what is left makes a block, and every other block keeps its place, length and state; live payloads are unchanged; the heap grew by exactly the pages without which no block would have been long enough, and the call fails only when no page is left and no free block is long enough |
| Kmalloc.WantLeast | src/kernel/memory/heap-allocator.c:104-109 | the block looked for is the shortest that holds the request with header and footer, up to 0xFFFFFFF4 bytes, and the shortest there is past that |
| Kmalloc.BigEnough | src/kernel/memory/heap-allocator.c:104-109 | the payload holds the requested size if and only if it is at most 0xFFFFFFF4 |
| Kmalloc.PayloadsApart | src/kernel/memory/heap-allocator.c:104-136 | payloads of different blocks do not overlap |
| Kmalloc.Allocator.Kfree | src/kernel/memory/heap-allocator.c:138-149 | the heap can be read as sound afterwards if and only if not both neighbours were free; if not, it is tiled and the list is right; the block is free, one with the free block before it if that is longer than 12 bytes, or else one with the free block behind it, or by itself; every other block keeps its place, length and state, and every other live payload its words |
| Kmalloc.FreedFollowed | src/kernel/memory/heap-allocator.c:53-61 | behind the block given back, as it then is, there is a free block if and only if two free blocks followed it: it takes in one only |
| Kmalloc.RunInUse | src/kernel/memory/heap-allocator.c:104-149 | over any run of kmalloc, kfree and stores into live payloads the heap is sound and the blocks in use are exactly those handed out and not freed since |
| Kmalloc.RunPayload | src/kernel/memory/heap-allocator.c:104-149 | from the call that hands it out until it is freed a block keeps its place and its size, and each word of it is the last its owner stored there or the one it came with |
| Kmalloc.BothFreeHappens | src/kernel/memory/heap-allocator.c:146-148 | a sound heap with a block both of whose neighbours are free |
| Kmalloc.TwoFreeHappens | src/kernel/memory/heap-allocator.c:138-149 | a sound heap with a block followed by two free ones |
| Kmalloc.LostBlock | src/kernel/memory/heap-allocator.c:46-73 | a free block that is not on the list leaves no reading of the heap as sound |
| Kmalloc.Allocator.AllocatePage | src/kernel/memory/heap-allocator.c:92-102 | a new page joins the trailing free block, if that is longer than 12 bytes, and heads the list as a block otherwise; no other block changes |
| Kmalloc.Allocator.Take | src/kernel/memory/heap-allocator.c:75-90 | the block leaves the list, whole or cut to size with the rest as a free block at the head; tiling, tags and every other block stay |
| Paging.WindowEntry | src/kernel/memory/vmm.c:108-124 | the hardware walk of the table window of v lands on the entry the walk of v uses |
| Paging.VirtToPhysIs | src/kernel/memory/vmm.c:78-106 | vmm_virt_to_phys and vmm_is_mapped agree with the hardware translation for every address |
| Spaces.Mmu.MapKernelPage | src/kernel/memory/vmm.c:126-128 | for every address: exactly the entry its walk uses is set, if it has a table; below slot 1022 exactly that page changes, in every space in the kernel half and in the current one in the user half, to a page user mode cannot reach; behind slot 1023 it is an entry of the directory itself |
| Spaces.Mmu.MapUserPage | src/kernel/memory/vmm.c:130-154 | exactly that user page changes, in the current space alone, also when a new table is inserted; user mode may then read and write it and its addresses translate into the frame; without a frame nothing changes |
| Spaces.Mmu.Switch | src/kernel/memory/vmm.c:69-76 | only the current space changes |
| Spaces.Mmu.CreateAddressSpace | src/kernel/memory/vmm.c:250-278 | a new space with an empty user half; no page of any other space is mapped differently |
| Spaces.BootSpace | src/arch/i686/boot/boot.s:125-180 | the tables the boot code leaves, its identity mapping in slot 0 set and cleared again, are sound |
| Spaces.StepIsolates | src/kernel/memory/vmm.c:126-278 | every call, described by the words it writes, keeps all spaces sound and leaves the user half of every other space alone |
| Spaces.RunShares | src/kernel/memory/vmm.c:126-278 | at any point of any run from boot on, all spaces translate every address from 0xC0000000 up to the windows alike |
| Spaces.RunIsolates | src/kernel/memory/vmm.c:126-278 | over any run what a space maps below 0xC0000000 changes only while that space is current |
| Spaces.RunGuards | src/kernel/memory/vmm.c:126-278 | at any point of any run from boot on, user mode reaches no page of the kernel half, from 0xC0000000 on, and no page table, in any space |
| Spaces.RunRights | src/kernel/memory/vmm.c:126-154 | over any run that maps kernel pages in the kernel half only, user mode may read and write every mapped page of the user half, and only pages of the kernel half are global |
| Spaces.RunGlobals | src/kernel/memory/vmm.c:69-128 | over such a run a global page lies in the kernel half and is the same in all spaces, so a translation that outlives a switch is not stale |
| Pmm.PageAllocator.Init | src/kernel/memory/pmm.c:20-63 | a page is free if and only if it lies wholly in an available region, has index at least 256 and is not reserved for the kernel; below 4 GiB the allocator is then sound |
| Pmm.PageAllocator.Alloc | src/kernel/memory/pmm.c:80-106 | the nearest free page from the last word on, wrapping; 0 if and only if no page is free; no other page changes |
| Pmm.PageAllocator.FreePage | src/kernel/memory/pmm.c:108-111 | exactly that page becomes free |
| Pmm.KernelCovered | src/kernel/memory/pmm.c:61-63 | the kernel loop reserves every page the kernel touches if and only if the offsets of its first and last bytes leave no page over |
| Pmm.UsableOverruns | src/kernel/memory/pmm.c:49-51 | the words in use stay inside the bitmap if and only if memory ends at or below 4 GiB |
| AtaWrite.WriteSafe | src/drivers/disk/ata.c:319-356 | under every interleaving a waiting driver has the flag, the interrupt pending or the drive still storing; a finished call has put the whole buffer at consecutive addresses and nothing else, a failed one a prefix |
| AtaWrite.Returns | src/drivers/disk/ata.c:319-356 | every maximal run ends with the call returned |
| AtaWrite.RunEnds | src/drivers/disk/ata.c:319-356 | no run is longer than a bound known at its start |
| AtaRead.ReadSafe | src/drivers/disk/ata.c:262-298 | a finished read has returned the disk slice, a failed one a prefix of it |
| AtaRead.ReturnsIff | src/drivers/disk/ata.c:284-292 | a maximal run returns if and only if no interrupt was served between the data transfer and the re-arm |
| AtaRead.RunEnds | src/drivers/disk/ata.c:262-298 | no run is longer than a bound known at its start |
| AtaRead.EarlyHappens | src/drivers/disk/ata.c:285-292 | a run of two sectors that hangs |
| Scheduler.Ring.Add | src/kernel/scheduler/scheduler.c:65-77 | the next pointers stay one simple cycle, the new process last |
| Scheduler.Ring.Tick | src/kernel/scheduler/scheduler.c:28-52 | the current process moves one place on, once running |
| Scheduler.Ring.Exit | src/kernel/scheduler/scheduler.c:161-187 | the cycle without that process; the head is current if it was current; the last process halts |
| Scheduler.Ring.Round | src/kernel/scheduler/scheduler.c:28-52 | n ticks with n processes run each exactly once, in ring order, and come back to the start |

## Findings

Where the code does not do what it is evidently for. Each has its exact condition proved; the
"happens" column names a lemma that exhibits a sound state, where the condition alone does not show
that there is one.

| what goes wrong | exactly when | stated by | happens |
|---|---|---|---|
| a create or mkdir writes over the contents of a file | it succeeds and its parent is not a directory | Histories.StepSpares | Scribbles.AddsCanScribble |
| a write breaks a directory or the name space | it goes to a directory, and the blocks it leaves do not spell directory records and a sound name space | Soundness.WriteSound | Scribbles.WriteCanBreak |
| a directory loses all its entries | a new name takes its last block to 4 GiB | Soundness.CreateSound, Soundness.MkdirSound | LostBlocks.AddCanOverflow |
| a directory gets a second "." or ".." | that is the name of a file or directory made in it | Soundness.CreateSound, Soundness.MkdirSound | Scribbles.AddCanDouble |
| a write wraps to the start of the file | offset + count reaches 2^32 and the write is full | FileOps.WriteRefines | Wrapped.WriteCanWrap |
| a read returns bytes from the start of the file | offset is below the size and offset + count reaches 2^32 | FileOps.ReadRefines | Wrapped.ReadCanWrap |
| a failed create loses a block | an inode is free, the parent is not the root, no block of it has room, the next one is the first use of the doubly indirect range, and two blocks are free | Histories.StepBlocks | LostBlocks.AddsCanLose |
| a failed mkdir loses a block | the same with three blocks free | Histories.StepBlocks | LostBlocks.AddsCanLose |
| a create or mkdir that succeeds loses a block | the position after the parent's last block is mapped | Histories.StepBlocks | Wrapped.AddCanDisplace |
| deleting a file leaks its blocks | i_block[13] or i_block[14] is set | FileFree.DeleteLeaks | Wrapped.DeleteCanLeak |
| truncating leaves blocks mapped past the new size | some block past it lies past the old block count or behind double or triple indirection | Truncate.CutExact | Wrapped.CutCanStay |
| truncating loses bytes in front of the new size | newSize + block size - 1 reaches 2^32 and the blocks then cut hold such bytes that are not zero | Truncate.CutKeeps | Wrapped.CutCanLose |
| growing a truncated file again shows old bytes | the blocks the cut does not reach hold bytes past the new size that are not zero | Truncate.CutTail | Wrapped.CutCanShow |
| freeing a block corrupts the books | the block was already free or is a metadata block | Volume.FreeBlock | |
| the group count comes out wrong | s_blocks_count - s_first_data_block + s_blocks_per_group - 1 reaches 2^32 | Mount.GroupsCountRight | |
| kfree loses a free block | both neighbours are free and the one before is longer than 12 bytes | Kmalloc.Allocator.Kfree | Kmalloc.BothFreeHappens |
| kfree leaves two free blocks side by side | the block is followed by two free blocks | Kmalloc.FreedFollowed | Kmalloc.TwoFreeHappens |
| kmalloc returns too small a block | the size exceeds 0xFFFFFFF4 | Kmalloc.BigEnough | |
| a read of two or more sectors hangs | the interrupt of a later sector is served before the flag is re-armed | AtaRead.ReturnsIff | AtaRead.EarlyHappens |
| the kernel's last page is not reserved | the page offset of its start plus that of its length minus one reaches a page | Pmm.KernelCovered | |
| the page bitmap is overrun | usable memory ends above 4 GiB | Pmm.UsableOverruns | |
| a long name is looked up in pieces | a component is longer than 255 bytes | Paths.WholeNames | |

Also as coded, and modelled so: create does not look for an existing entry of the same name; i_blocks
counts data blocks only; a write of no bytes past the end extends the file; a page-table frame that
cannot be had makes vmm_map_user_page return silently; a 12-byte free block is never merged into,
because its footer overlaps its back link.

## Left out

- kmalloc failure and device errors inside ext2: both are taken to succeed there, since a failed
  kmalloc in ext2_resolve_block_num is indistinguishable from a hole.
- Two in-memory inodes with one number: the code has no inode cache; the model keeps one at a time. So
  a path that climbs back to the root through "..", and so reads a second copy of the record that
  stays in memory (dentry.c:132-144), is not followed by an operation here.
- Walks.Vfs.Lookup: for volumes whose root record on the device is the one in memory, which is not so
  after a failed create in a cramped root; the other walks the same.
- DirAdd.AddDirEntry: under a file, only as long as the walk over its bytes stays inside the block
  buffer; where a record header or the new entry would not lie in it, the code reads or writes
  whatever is behind the buffer.
- NameOps.Create: the same.
- SubDirs.Mkdir: the same.
- Superblock validation and the fields of `Geom`: geometry is taken as consistent, constant and
  non-overlapping (`GeomOK`); uid, gid, times and flags of inodes have no meaning here: that no
  operation changes them is proved.
- Hard-linked images: the run lemmas start from volumes where no inode has two names.
- "." and ".." as arguments of unlink and rmdir, where the code does not look at the name either.
- What unlink, rmdir and lookup find on a volume that is no longer sound: runs go on only from sound
  ones.
- ext2_readdir, fs_list_dir, stat, chmod, type conversions, registries of file systems and mounts.
- Assignment through i_block[14]: the code has none; resolving through it is modelled.
- Kmalloc.Allocator.Kfree: not for the very last block of the heap, where the code reads the word
  behind the heap (heap-allocator.c:55), whose value the model does not have; ptr must be one handed
  out, or 0.
- Kmalloc.Allocator.Kmalloc: the heap is taken to end below 4 GiB, and pages come from a counter.
- vmm_destroy_address_space, vmm_alloc_kernel_page and the unmapping calls; slot 1022 of a new
  directory is not written by the code and not constrained; the TLB is taken as coherent, and access
  rights are those of user mode, which the kernel's own accesses ignore.
- Pmm.PageAllocator.Init: region ends do not wrap 2^64; the memory map is given as a list of entries.
- The ATA drive is idle at the start and the addresses lie on a device of at most 2^28 sectors; IDENTIFY,
  device selection timing and the secondary channel are not modelled, and timeouts may strike at any
  poll.
- Scheduler.Ring.Start: the READY state, left again before anything can observe it, is not modelled;
  context switching is the change of `current`.
- Concurrency between system calls: operations run one after another.
- Boot code other than the tables it leaves, ELF loading, terminal, keyboard and shell.
