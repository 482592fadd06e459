# demoOS: a verified model of the kernel core

This project models the four parts of demoOS where a mistake corrupts data
or stops a process for good, and proves what they are there for:

- **FAT32** (`libs/fat32/fat.c`): the sector cache, the allocation table and its
  mirror, cluster chains, files with seek, read, write and sync, and directories
  with long names.
- **Memory** (`libs/mm.c`, with its callers in `libs/fork.c` and
  `libs/syscalls.c`): the page allocator, four-level translation tables, the
  copy made by `fork`, and the replacement made by `exec`.
- **Scheduling** (`libs/scheduler.c`): seven policies over intrusive ready
  queues, timer ticks, signals, `wait`, `exit` and `fork`.
- **Messages** (`libs/ipc.c`): the ring buffer of each process and the blocking
  calls on top of it.

Where the C code updates memory in place the model is a class with the same
fields (`FatVolume.Fat`, `FatFile.File`, `FatDirectory.Dir`,
`MemoryManager.PageAllocator`, `ReadyQueues.ProcessQueue`,
`KernelScheduler.Scheduler`, `MessageRing.MessagesCircularBuffer`, ...), and each
method is proved against a value: the logical disk image, the sequence of
directory slots, the pool of pages with the tree of tables in it, the kernel
state `KState`. The results over whole runs are lemmas about those values, and
the classes take exactly the steps that the runs are made of.

| files | what they hold |
|---|---|
| `DiskLayout` | a FAT32 volume as the standard lays it out, byte by byte, for the results to be read against |
| `FatImage`, `FatChains`, `FatOffsets` | sectors, table entries, chains, sector arithmetic |
| `FatVolume`, `FatAllocator`, `SmallVolumes` | the cached volume; the cluster allocator over whole runs; volumes for the examples |
| `FatFile` | an open file |
| `DirNames`, `DirSlots`, `FatDirectory` | names in slots; directories as maps; the cursor that works on them |
| `Mmu` | the hardware walk, bit by bit, with the faults it ends in |
| `PageFrames`, `PageTables`, `ProcessPages` | pages and ownership; the tables that the walk goes through; the pages of one process |
| `PageZero` | what a table on physical page 0 means to those who share it |
| `MemoryManager`, `AddressSpaces`, `ProcessMemory` | the allocator and its callers; runs of many processes; the machine that takes their steps |
| `SchedulerState`, `SchedulerQueues`, `SchedulerRuns` | the kernel as a value; its queues; its events |
| `SchedulerEffects` | what ticks, decisions, forks and the calls do to each record, number by number |
| `SchedulerSafety`, `SchedulerFairness`, `SchedulerPriorities`, `SchedulerEstimates`, `ShortestJobFirst`, `SchedulerLottery` | what holds over all runs, policy by policy |
| `ReadyQueues`, `SchedulerLoops`, `KernelScheduler` | the linked queues and process records, proved to refine the value |
| `MessageRing`, `MessageRuns`, `MessageEffects`, `MessageCalls` | the ring; runs of the kernel with messages; what an attempt does to buffers and processes; the two calls |
| `SetSizes` | counting |

`dafny verify dfyconfig.toml` checks the whole project.

## Findings

Where the code does not keep what its documentation or its callers rely on. Each
line is proved with the exact condition, not only with an example.

| what goes wrong | exactly when | proved by |
|---|---|---|
| `push_message` writes slot 4 of an array declared with four slots (`libs/ipc.c:54-66`, `libs/scheduler.h:68-72`) | some process has been sent its fifth message, whatever it has received in between | `MessageRuns.RunInside`, `MessageRuns.FifthMessage` (a run from boot), `MessageRing.MessagesCircularBuffer.Push` |
| after a message has been taken out `receive_message` reads through every slot of the process table, empty ones included (`libs/ipc.c:43-44`) | fewer than 63 forks have registered a process | `MessageRuns.RunEmptySlots` |
| `map_page` and `map_table` use physical page 0 as a translation table, shared by everybody it happens to (`libs/mm.c:59-62`, `libs/mm.c:106-110`) | when `map_page` runs, fewer pages are free than tables are missing; for `allocate_user_page`, at least one page is free and at most as many as tables are missing | `MemoryManager.PageAllocator.MapPage`, `MemoryManager.PageAllocator.AllocateUserPage`, `ProcessMemory.LastPage` |
| a fork breaks the isolation of address spaces for that reason | the parent has pages, and between one and four pages are free when `copy_virtual_memory` starts, that is after the page for the new process record has been taken | `MemoryManager.PageAllocator.CopyVirtualMemory`, `ProcessMemory.Machine.CopyMemory`, `AddressSpaces.LostIsNotIsolated` |
| a process reads at an address the frame of whoever has last mapped a page through page 0 | its own tables lead to page 0 as the last one, which is so after `allocate_user_page` when exactly as many pages were free as it had tables to create | `PageZero.SunkWalk`, `PageZero.Exposed`, `MemoryManager.PageAllocator.AllocateUserPage`, `ProcessMemory.SharePageZero` |
| `copy_process` ignores the answer of `copy_virtual_memory` (`libs/fork.c:45`): the child runs with part of its parent's memory | fewer pages are free than the parent has, plus four | `MemoryManager.PageAllocator.CopyVirtualMemory`, `AddressSpaces.ForkedReads` |
| `copy_process` returns early with preemption disabled (`libs/fork.c:21-23`): the caller cannot be preempted any more | one of its forks has failed; each failure adds one to its count for good | `SchedulerSafety.RunPreemption` |
| a killed process never wakes those who wait for it (`libs/scheduler.c:834-866`) | it is killed by a signal while somebody waits | `SchedulerSafety.KillStrands`, `SchedulerSafety.KilledWithoutWaking` |
| SIGNAL_RESUME never does anything (`libs/scheduler.c:834-866`): signals are only looked at in a queue, and a stopped process is in none | always | `SchedulerSafety.RunAbsorbed`, `SchedulerSafety.ResumeUnreachable` |
| `fat_file_write` reports success for bytes it has not made part of the file (`libs/fat32/fat.c:1373-1381`) | the offset behind the data does not fit in 32 bits, or there is no room for its cluster | `FatFile.File.Write`, `FatFile.ShortWrite` |
| a `fat_file_seek` that finds the volume full leaves the cluster pointer at the end of the chain and the offset where it was, so that what is done next through the handle is done in the wrong cluster (`libs/fat32/fat.c:1433-1453`) | unless the offset was in the last cluster before and the volume was full at once | `FatFile.File.Seek` |
| `stretch_chain` reports a full volume although a cluster is free (`libs/fat32/fat.c:423-424`) | on a table without broken entries: the only free cluster is the one used last, and it does not follow the end of the chain | `FatAllocator.FullDespiteFree`, `FatAllocator.FullWithOneFree` |
| `stretch_chain` hands out a table entry that has no sectors behind it (`libs/fat32/fat.c:1093` counts entries, not clusters) | the search meets such an entry, free, before any other free one; a chain whose end was used last can be stretched by n clusters unharmed if and only if no such entry is free, or n clusters between the hint and the end of the data region are | `FatAllocator.SlackHandedOut`, `FatAllocator.SlackNeverHandedOut`, `FatAllocator.BackedIff` |
| on a full volume the search of `stretch_chain` does not end (`libs/fat32/fat.c:418-432`) | the hint read from FSInfo (`libs/fat32/fat.c:1112`) is not a cluster number | `FatAllocator.ScanComesBack` |
| `stretch_chain` answers 2, 6 or 8, the flags of an earlier entry, instead of an error code; `create_chain` answers uninitialised flags, 0 among them, when there is no earlier entry (`libs/fat32/fat.c:426-428`) | the search meets an entry it cannot read before any free one: one that holds 1, or a number that is neither an entry of the table nor a mark, or one whose sector the disk does not deliver | `FatVolume.StretchOutcomes`, `FatVolume.Fat.StretchChain`, `FatVolume.FlagAnswerIs`, `FatAllocator.StretchAnswersTwo`, `FatAllocator.CreateAnswersNothing` |
| `dir_next` tells the end of a cluster by the absolute sector number (`libs/fat32/fat.c:511-513`) | it is right for every cluster if and only if the data region is aligned to clusters | `FatOffsets.SectorTestExact` |
| a name with the byte 0xff can be entered but makes every search fail that does not find its name before that entry (`libs/fat32/fat.c:651-721`) | exactly the names without 0x00 and 0xff can be read back | `DirSlots.LongNameRoundTrip`, `DirSlots.SearchStops` |

## Model

| member | source | states |
|---|---|---|
| FatImage.PutTable | libs/fat32/fat.c:328-356 | Setting an entry sets the low 28 bits of exactly that entry of the active table. |
| FatImage.PutMirrors | libs/fat32/fat.c:328-356 | After an entry is set the two copies agree on it whatever they held, agree elsewhere exactly as far as before, and every word keeps its own top nibble. |
| FatChains.ChainAcyclic | libs/fat32/fat.c:296-325 | A chain that ends in an end mark visits no cluster twice. |
| FatChains.ChainUnique | libs/fat32/fat.c:296-325 | The first cluster determines the whole chain. |
| FatChains.DecomposesReadable | libs/fat32/fat.c:296-325 | In a table made of disjoint chains, free and bad clusters no entry is broken. |
| FatChains.StretchGrows | libs/fat32/fat.c:390-458 | Taking a free cluster for a chain appends it to that chain, leaves every other chain and the disjointness of all as they were, and uses up exactly one free cluster. |
| FatChains.StretchStarts | libs/fat32/fat.c:455-458 | Taking a free cluster for no chain adds a chain of one cluster and changes no other. |
| FatChains.RemoveKeepsOthers | libs/fat32/fat.c:359-387 | Removing a chain frees and counts exactly its clusters and leaves all the other chains. |
| FatChains.RemoveOnlyChains | libs/fat32/fat.c:359-387 | Removal succeeds from a cluster only if a properly ended chain starts there: cycles, free, bad and broken entries all give an error. |
| FatChains.RemoveCounts | libs/fat32/fat.c:359-387 | On any table, a cyclic one included, the count of freed entries is the growth of the number of free clusters. |
| FatChains.GrownDecomposes | libs/fat32/fat.c:390-452 | However often one chain of the table is stretched, the table stays made of disjoint chains with only that one changed. |
| FatChains.GrownFree | libs/fat32/fat.c:390-452 | A chain that has grown has used up as many free clusters as it has grown by. |
| FatVolume.Fat.SyncBuf | libs/fat32/fat.c:237-247 | The logical disk is unchanged and the device holds all of it afterwards; the answer is an error exactly when a transfer has failed. |
| FatVolume.Fat.UpdateBuf | libs/fat32/fat.c:250-265 | Another sector comes into the cache without any loss: the logical disk is unchanged. |
| FatVolume.Fat.SyncFs | libs/fat32/fat.c:268-293 | The device holds the logical disk and nothing is left to write; if FSInfo had to be updated its word at 488 is the number of free clusters, the one at 492 the hint, and all its other bytes and all other sectors are as before. |
| FatVolume.WithInfoTells | libs/fat32/fat.c:276-286 | FSInfo written with a hint and a count reads with the count at 488 and the hint at 492, and is otherwise as it was. |
| FatVolume.Fat.GetFat | libs/fat32/fat.c:296-325 | Whatever the cache holds, the value is the 28 bits of the word at the place of the entry in the first table of the logical disk, and the kind is the one that the standard gives to that value; a broken entry is an error of its own. |
| FatVolume.TableTells | libs/fat32/fat.c:298-307 | The table that all the results are about is the one in the 28-bit words, 128 to a sector, from the first sector of the table on. |
| FatVolume.KindTells | libs/fat32/fat.c:308-320 | An entry is free, bad, last or a link exactly for the values the standard gives these meanings. |
| FatVolume.Fat.PutFat | libs/fat32/fat.c:346-356 | The logical disk changes as `Put` says, in both copies when they are mirrored. |
| FatVolume.Fat.RemoveChain | libs/fat32/fat.c:359-387 | The loop ends on every table, leaves exactly the table of `Remove`, moves the free counter by the number of freed entries modulo 2^32, reports an error exactly when the links do not end properly, and touches no data sector. |
| FatVolume.Fat.ScanForFree | libs/fat32/fat.c:414-433 | On every table: nothing before the place where the scan ends is free or unreadable; it ends at a free cluster, or back at the hint with FULL, or at an entry it cannot read with the flags of the entry before it. |
| FatVolume.Fat.StretchChain | libs/fat32/fat.c:390-452 | On every table: the successor of the end if it is free, else the first free cluster in cyclic order, gets the end mark 0x0fffffff, is linked and recorded, and the volume is synced; BROKEN exactly for an unreadable successor, FULL exactly when the search comes round; where it meets an unreadable entry the answer is the flags; without a cluster nothing has changed. |
| FatVolume.StretchOutcomes | libs/fat32/fat.c:402-432 | On every table exactly one of four things is the case: the successor is unreadable, a cluster is taken, the volume is full, the search stops at an unreadable entry. |
| FatVolume.FlagAnswerIs | libs/fat32/fat.c:402-432 | In the last case the answer is 2, 6 or 8, unless no entry has been read before. |
| FatVolume.TookTwice | libs/fat32/fat.c:390-452 | Growing a chain twice, each time by the clusters the search chooses, is growing it by those clusters. |
| FatVolume.BackedTook | libs/fat32/fat.c:390-452 | If every cluster handed out on the way to n clusters has sectors, that stays so as the chain grows. |
| FatVolume.Fat.ClustClear | libs/fat32/fat.c:461-481 | Exactly the sectors of the cluster are zero and no other has changed. |
| FatVolume.RoomTold | libs/fat32/fat.c:390-452 | Whether a chain can come to a given length by stretching is decided by the table at the start: the search must not be empty-handed at first, and there must be enough free clusters. |
| FatAllocator.StepSound | libs/fat32/fat.c:359-458 | Each allocator call keeps the table made of disjoint chains, and keeps the difference between the recorded and the real number of free clusters. |
| FatAllocator.RunSound | libs/fat32/fat.c:359-458 | Over every run of allocations and removals the table stays made of disjoint chains and the free counter drifts by nothing. |
| FatAllocator.GrowChain | libs/fat32/fat.c:390-452 | `stretch_chain` behind a chain takes a step of those runs. |
| FatAllocator.StartChain | libs/fat32/fat.c:455-458 | `create_chain` takes a step of those runs; when the disk fails during the search the answer is the flags, or what they hold uninitialised. |
| FatAllocator.DropChain | libs/fat32/fat.c:359-387 | `remove_chain` takes a step of those runs. |
| FatAllocator.FullDespiteFree | libs/fat32/fat.c:402-432 | On a table without broken entries the volume is reported full with a cluster free exactly when the only free one is the one used last and it does not follow the end of the chain. |
| FatAllocator.FullWithOneFree | libs/fat32/fat.c:414-433 | That happens on a table of 128 entries in which every cluster but the hint is in use. |
| FatAllocator.ScanComesBack | libs/fat32/fat.c:418-432 | The search returns to the hint it started from if and only if the hint is a cluster number of the table. |
| FatAllocator.SlackHandedOut | libs/fat32/fat.c:402-432 | When the cluster handed out lies behind the data region, in terms of the free and the unreadable entries on either side of the region's end, the hint and the successor of the chain. |
| FatAllocator.SlackNeverHandedOut | libs/fat32/fat.c:402-432 | No caller can ever be given such a cluster if and only if no entry behind the data region is free. |
| FatAllocator.BackedIff | libs/fat32/fat.c:402-432 | A chain whose end was used last can be stretched to n clusters with sectors if and only if no entry behind the data region is free or enough clusters ahead of the hint are. |
| FatAllocator.StretchAnswersTwo | libs/fat32/fat.c:426-428 | On a table of 128 entries with one broken entry stretching a chain answers 2 without any disk error. |
| FatAllocator.CreateAnswersNothing | libs/fat32/fat.c:426-428 | On the same table `create_chain` answers success, when the flags happen to be 0, without having taken a cluster. |
| FatOffsets.SectorOfInjective | libs/fat32/fat.c:231-234 | Different positions of a chain lie in different sectors of the disk. |
| FatOffsets.FirstSectorTells | libs/fat32/fat.c:231-234 | Cluster c starts c - 2 clusters behind the beginning of the data region, with 1 to 128 sectors to a cluster. |
| FatOffsets.SectorTells | libs/fat32/fat.c:1434-1453 | The sectors of a file or directory are those of its clusters, cluster by cluster in the order of the chain. |
| FatOffsets.SectorTestExact | libs/fat32/fat.c:503-514 | The test of the absolute sector number finds the end of every cluster, and finds it nowhere else, if and only if the data region is aligned to clusters. |
| FatFile.File.FollowChain | libs/fat32/fat.c:1434-1453 | One step goes to the next cluster of the chain, which is stretched by one where it ends; on a full volume nothing has changed. |
| FatFile.File.Seek | libs/fat32/fat.c:1394-1473 | The goal is the offset, the cursor plus the offset, or the size plus the offset. Out of 32 bits it is refused without effect; otherwise it succeeds exactly when there is room for the goal's cluster, the cursor is at the goal, the chain has grown by the clusters the search chooses, no byte of the chain and no other data sector has changed; on a full volume the handle is usable afterwards exactly when the cursor was in the last cluster before and the volume was full at once. |
| FatFile.File.Write | libs/fat32/fat.c:1348-1382 | The bytes from the cursor on are replaced by the first `bytes` of the data and no others change; the cursor comes to the end of a piece (a sector boundary, or the end of the data) if and only if that offset fits in 32 bits and there was room for its cluster, and `bytes` counts one piece more when it does not come to the end; the size is the greater of the old one and the cursor; the answer is success either way. |
| FatFile.ShortWrite | libs/fat32/fat.c:1348-1382 | An input on which a write of one sector to a full volume reports success and 512 bytes and leaves the file empty. |
| FatFile.File.Read | libs/fat32/fat.c:1312-1341 | The data are the contents from the cursor up to the length or the size, whatever the answer is; no byte changes; it fails exactly when it comes to the size and there is no room for a cluster to put the cursor in. |
| FatFile.ReadAt | libs/fat32/fat.c:1312-1473 | Any part of the contents can be sought and read, whatever the handle did before. |
| FatFile.ContentsAfterWrite | libs/fat32/fat.c:1348-1382 | A completed write at or before the end overlays the contents; behind the end it leaves a gap of bytes the chain happened to hold; what was before it is kept. |
| FatFile.PutAll | libs/fat32/fat.c:1348-1473 | Any sequence of seeks and writes through one handle succeeds if and only if there was room for each of them at the beginning; then every byte of the file holds what was written to it last, or what it held before, the size is the furthest end, and no other data on the volume has changed. |
| FatFile.PutThenRead | libs/fat32/fat.c:1312-1473 | What is read back after any sequence of writes is what was written there last. |
| FatFile.OtherChainBytes | libs/fat32/fat.c:1348-1473 | Work on one chain leaves the bytes of every chain that shares no cluster with it. |
| FatFile.File.Sync | libs/fat32/fat.c:1479-1518 | Afterwards the device itself holds the bytes of the file. In the directory entry the date is at 18 if the file was accessed; if it was modified the time is at 22, the date at 24, the size at 28 and the archive bit 0x20 is set; the name, the creation, the first cluster and every other byte of the sector are as before. |
| FatFile.StampedTells | libs/fat32/fat.c:1495-1511 | A stamped entry reads so, and whatever was neither accessed nor modified reads as before. |
| DirNames.PutSfnName | libs/fat32/fat.c:614-631 | The loop writes the short name: the first eight characters before the first dot, three of what follows that dot, lower case as upper case, other characters that a short name may not hold as underscores, padded with blanks. |
| DirNames.GetCrc | libs/fat32/fat.c:183-189 | The loop computes the checksum of the eleven characters: the sum is rotated right by one bit and the next one is added, modulo 256. |
| DirNames.CrcTells | libs/fat32/fat.c:183-189 | The checksum is the one the standard defines bit by bit: every bit of the sum goes one place down, the lowest to the top, and the next character is added. |
| DirNames.PutLfnNameFrag | libs/fat32/fat.c:651-671 | The loop writes a fragment with its terminator and padding and nothing else of the slot. |
| DirNames.FragRoundTrip | libs/fat32/fat.c:651-721 | A fragment without 0x00 and 0xff is read back to the byte. |
| DirSlots.SlotKinds | libs/fat32/fat.c:568-583 | A slot is the end, free or long exactly for the first byte 0x00, 0x00 or 0xe5, and the attribute 0x0f. |
| DirSlots.LongNameRoundTrip | libs/fat32/fat.c:674-984 | A name of 1 to 255 bytes is parsed back to the byte if and only if it holds neither 0x00 nor 0xff; the checksum matches then; a C string with 0xff in it is not parsed at all. |
| DirSlots.SearchStops | libs/fat32/fat.c:724-776 | After an entry with a 0xff in its name has been added a search finds what it found before in front of that entry, and fails for every other name. |
| DirSlots.LfnSlotFresh | libs/fat32/fat.c:937-957 | Nothing of the slot's former contents shines through a new long-name slot. |
| DirSlots.LfnSlotTells | libs/fat32/fat.c:937-957 | A new long-name slot has its number, with 0x40 on the one with the end of the name, the attribute 0x0f, the checksum at 13, no cluster, and its thirteen characters in their places with terminator and padding. |
| DirSlots.SfnSlotTells | libs/fat32/fat.c:960-982 | A new short-name slot reads as an empty file with the attribute, the first cluster with its low half at 26 and its high half at 20, times at 14 and 22, and dates at 16, 18 and 24. |
| DirSlots.AddedTells | libs/fat32/fat.c:926-984 | After an entry is added its slots read as its long entries, the last part of the name first, with the checksum of the short entry behind them; every other slot is as before, apart from a new end mark where the old one has gone. |
| DirSlots.AddFinds | libs/fat32/fat.c:724-984 | The directory as a map, one entry more: after an entry is added a search for its name finds it, and a search for any other name finds what it found before. |
| DirSlots.RemoveFinds | libs/fat32/fat.c:724-869 | The directory as a map, one entry less: after the entry found for a name is removed, a search for any other entry finds what it found before, and one for it finds what lies behind. |
| DirSlots.ScanEndBound | libs/fat32/fat.c:885-912 | The scan for free slots goes no further beyond the end of the directory than the entry is long. |
| FatDirectory.SlotsStretched | libs/fat32/fat.c:546-559 | A cleared cluster at the end of a directory adds end markers behind its slots and changes none of them. |
| FatDirectory.ClusterOfSector | libs/fat32/fat.c:225-234 | `sect_to_clust` undoes `clust_to_sect`. |
| FatDirectory.Dir.Next | libs/fat32/fat.c:503-531 | The cursor moves exactly one slot on, and EOF is answered exactly behind the last one. |
| FatDirectory.Dir.NextStretch | libs/fat32/fat.c:546-559 | As `Next`, with a cluster of end markers added behind the last slot; FULL leaves the directory as it was. |
| FatDirectory.Dir.ParseLfnName | libs/fat32/fat.c:674-721 | The loop over the cursor leaves in the name buffer, the length and the checksum what `ParseRun` finds in the slots. |
| FatDirectory.Dir.Find | libs/fat32/fat.c:724-776 | The answer and the place are those of `Search` over all the slots, and nothing on the disk changes. |
| FatDirectory.Dir.RemoveEntries | libs/fat32/fat.c:841-869 | Exactly the slots from the noted one to the cursor get 0xe5 as their first byte; all their other bytes and all the other slots are as before. |
| FatDirectory.Dir.FindPlace | libs/fat32/fat.c:885-912 | The scan succeeds if and only if there is room for the clusters it needs, and stops behind the first stretch of free slots that is long enough. |
| FatDirectory.Dir.Add | libs/fat32/fat.c:872-984 | A name of wrong length is refused without effect; otherwise it succeeds if and only if there is room for the slot behind the new entry, the entry stands where the scan says and reads there, byte by byte, as an entry with that name, attribute, first cluster, date and time; every other slot is kept apart from the end marker, and no other data sector has changed. |
| FatDirectory.TwoAreEnough | libs/fat32/fat.c:872-912 | With two clusters free any entry can be added to any directory. |
| FatDirectory.AddThenFind | libs/fat32/fat.c:724-984 | On the disk: a new name is added exactly when there is room, and a search for it then finds its entry at the place where the scan had settled; the slot found reads as a new entry with that attribute, first cluster, date and time. |
| FatDirectory.RemoveThenFind | libs/fat32/fat.c:724-869 | On the disk: the entry found is removed, its slots reading as unused ones, and the name is found again exactly when another entry lies behind. |
| PageTables.SamePage | libs/mm.c:98-126 | Two addresses follow the same path through the tables exactly when they lie in the same page. |
| PageTables.FlagsFitBelow | libs/mm.c:106-117 | Joining a page address with flags by a bitwise or adds them, and masking gives the address back. |
| PageTables.WalkFinds | libs/mm.c:57-126 | The hardware's walk, which faults at a descriptor of the wrong type and at a page without access flag or permission, finds in the bytes in memory exactly the frames of the abstract map, as normal memory that a program may read and write. |
| PageTables.TranslateFinds | libs/mm.c:57-126 | The same from any root but page 0, whatever page 0 holds. |
| PageTables.FrameTells | libs/mm.c:121-126 | The descriptor that is written for a page has type 3, attribute index 1, the access flag, the permission for user programs, is not read-only, and leads to that page. |
| PageTables.TreeMapped | libs/mm.c:98-118 | A table made by `map_table` joins the tree if there is a free page for it, and is page 0 if there is none. |
| PageTables.LostMapped | libs/mm.c:98-118 | Without a free page a walk that has come to page 0 stays there. |
| PageZero.SunkWalk | libs/mm.c:57-118 | A process whose last table for an address is page 0 finds there the frame that the descriptor in page 0 names, if that may be read, and faults otherwise, whoever has written it. |
| PageZero.LastSinks | libs/mm.c:57-118 | That is what happens to it when exactly one page is missing for its tables. |
| PageZero.Exposed | libs/mm.c:57-118 | After another process has mapped a page through page 0 it reads and writes the frame of that process. |
| MemoryManager.PageAllocator.GetFreePage | libs/mm.c:33-43 | The lowest free page, all zeros and marked, with every other page as before, or 0 exactly when none is free. |
| MemoryManager.PageAllocator.FreePage | libs/mm.c:46-54 | Exactly that page becomes all zeros and free, with every other page as before; an unaligned address is refused without effect. |
| MemoryManager.PageAllocator.AllocateKernelPage | libs/mm.c:14-20 | A cleared page that nobody used, or 0 exactly when none is free. |
| MemoryManager.PageAllocator.MapTable | libs/mm.c:98-118 | The entry's table, created where there is none, on page 0 when no page is free; nothing else changes. |
| MemoryManager.PageAllocator.MapPage | libs/mm.c:57-94 | The tables keep clear of page 0 if and only if there is a free page for each missing one; then exactly the page of the address is mapped anew, and the hardware translates the address to the frame; otherwise the frame is entered in page 0 and every page in use that is no table of the process is left alone. |
| MemoryManager.PageAllocator.AllocateUserPage | libs/mm.c:23-30 | 0 exactly when no page is free; a table lands on page 0 exactly when some page is free but no more than tables are missing, and only the last one does when just one page is short; otherwise a cleared page is mapped at the address. |
| MemoryManager.PageAllocator.CopyVirtualMemory | libs/mm.c:184-199 | The child's tables keep clear of page 0 unless between one and four pages are free; then it has copies of the first pages of its parent, all of them exactly when there are free pages for them and four tables, and the answer tells which; no page that was in use is touched in any case. |
| MemoryManager.PageAllocator.CopyCode | libs/fork.c:121-134 | Sixteen pages are mapped exactly when there are pages for them and the missing tables; then the first hold the code and the rest is zero; otherwise no page is free any more; no page in use but the process's own is touched in any case. |
| MemoryManager.PageAllocator.FreeUserPages | libs/syscalls.c:282-290 | Exactly the user pages go back to the pool; the tables stay. |
| MemoryManager.PageAllocator.Exec | libs/syscalls.c:270-291 | Code of more than fifteen pages is refused without effect; otherwise the new program is in place exactly when its pages can be found among the free ones and the process's own, which is always so for a process that has all sixteen; no page in use but its own is touched in any case. |
| AddressSpaces.MapPageWalk | libs/mm.c:57-126 | After `map_page` the hardware's walk gives the new frame for every address of that page, and for every other address what it gave before. |
| AddressSpaces.StepIsolated | libs/mm.c:14-199 | Every step keeps the tables and frames of all processes and of the kernel disjoint pages in use. |
| AddressSpaces.RunIsolated | libs/mm.c:14-199 | So they are over every run of kernel allocations, forks, loads, `exec`s and stores. |
| AddressSpaces.RunSlots | libs/scheduler.h:54-60 | In no run does a list of pages outgrow its sixteen slots. |
| AddressSpaces.OthersReadTheSame | libs/mm.c:14-199 | Nothing a process does changes what another process reads at any address. |
| AddressSpaces.ForkedReads | libs/mm.c:184-199 | After a fork the parent reads what it read and the child reads the same in every page that was copied and nothing elsewhere; with enough free pages they read alike everywhere. |
| AddressSpaces.ExecutedReads | libs/fork.c:121-134 | A loaded program reads as its code, then zeros up to the sixteenth page, then nothing. |
| AddressSpaces.StoredReads | libs/mm.c:57-126 | A store is read back at its address and changes no other address. |
| AddressSpaces.KeptReads | libs/mm.c:14-199 | A call that leaves the pages of the others alone leaves what they read alone, also when a table has landed on page 0. |
| AddressSpaces.LostIsNotIsolated | libs/mm.c:98-118 | A process with a table on page 0 is not isolated; what that exposes is `PageZero.Exposed`. |
| ProcessMemory.Machine.AllocatePage | libs/mm.c:14-20 | A page for the kernel is a step of the runs. |
| ProcessMemory.Machine.ReleasePage | libs/mm.c:46-54 | So is giving one back. |
| ProcessMemory.Machine.StartThread | libs/fork.c:34-37 | A kernel thread, which has no pages of its own, is a step of the runs. |
| ProcessMemory.Machine.CopyMemory | libs/fork.c:38-46 | A fork keeps the processes isolated if and only if a page is found for every table or no page at all, and is then a step of the runs; in any case every process but the child keeps its pages and reads what it read before. |
| ProcessMemory.Machine.LoadProgram | libs/fork.c:98-111 | Loading the first program is a step of the runs exactly when its pages are found; if not no page is free afterwards, and the other processes read what they read before. |
| ProcessMemory.Machine.ExecProgram | libs/syscalls.c:259-309 | `exec` is a step of the runs when its pages are found, which a process with sixteen pages is sure of; if they are not no page is free afterwards, and the other processes read what they read before. |
| ProcessMemory.Machine.StoreByte | libs/mm.c:121-126 | A store through the hardware's walk is a step of the runs. |
| ProcessMemory.LastPage | libs/mm.c:23-30 | An input on which a table lands on page 0: one page is free and a process asks for its first. |
| ProcessMemory.SharePageZero | libs/mm.c:23-118 | An input on which that happens: four pages are free when the first process asks for its first page, and one has been given back before the second process does. |
| ReadyQueues.ProcessQueue.Append | libs/scheduler.c:86-107 | The linked list has the process at its end and is otherwise as before. |
| ReadyQueues.ProcessQueue.Dequeue | libs/scheduler.c:110-129 | The head is unlinked and returned, or NULL from an empty list. |
| ReadyQueues.ProcessQueue.Remove | libs/scheduler.c:134-142 | Any process is unlinked given its predecessor, head and tail included. |
| ReadyQueues.ProcessQueue.InsertSorted | libs/scheduler.c:147-192 | The process stands behind every one whose estimate is not greater and before all the others. |
| SchedulerQueues.EnqueueLinks | libs/scheduler.c:199-233 | Under every policy a ready process outside the queues is linked exactly once, in a queue of that policy. |
| SchedulerQueues.SelectLinks | libs/scheduler.c:359-673 | Under every policy a decision keeps each ready process linked exactly once and nobody else, and idles only when nobody is ready. |
| SchedulerRuns.StepKeeps | libs/scheduler.c:199-962 | Every event under every policy keeps the kernel invariant, and changes a process record only as that event may. |
| SchedulerSafety.RunInvariant | libs/scheduler.c:199-962 | The invariant holds in every state of every run, from boot on. |
| SchedulerSafety.RunQueues | libs/scheduler.c:86-233 | In every run a process is ready exactly when it is queued, it is queued once, and init never. |
| SchedulerSafety.RunOneRunning | libs/scheduler.h:127-129 | After every event the only running process is the current one. |
| SchedulerSafety.RunPreemption | libs/scheduler.c:327-338 | Between events the preemption count of a process is 0 if it is current and 1 if not, plus one for each of its failed forks. |
| SchedulerSafety.RunAbsorbed | libs/scheduler.c:834-866 | A zombie or stopped process stays that for ever and is never queued or dispatched again. |
| SchedulerSafety.ResumeUnreachable | libs/scheduler.c:834-866 | Handling the signals of a ready process never queues it. |
| SchedulerSafety.RunNoOrphans | libs/scheduler.c:935-962 | In a run without SIGNAL_KILL nobody ever waits for a zombie. |
| SchedulerSafety.KillStrands | libs/scheduler.c:834-866 | Handling signals leaves somebody waiting for a zombie exactly when it kills a process that somebody waits for. |
| SchedulerSafety.KilledWithoutWaking | libs/scheduler.c:834-866 | A run of five events from boot in which that happens. |
| SchedulerEffects.TickEffect | libs/scheduler.c:898-929 | What a tick does to the slice, the burst, the levels and the boost, policy by policy, and when it ends in a decision. |
| SchedulerEffects.PickEffect | libs/scheduler.c:359-673 | The process that a decision chooses runs with a slice of 10 ticks under Round Robin and the lottery, with that of the level it was queued at under the multilevel policies, and with a positive one under priority aging. |
| SchedulerEffects.EpochEffect | libs/scheduler.c:423-433 | A new epoch gives every process half of its slice, rounded down, plus its priority, and changes nothing else. |
| SchedulerEffects.ExitEffect | libs/scheduler.c:935-962 | Exactly the processes that wait for the one that ends are woken. |
| SchedulerEffects.ForkEffect | libs/fork.c:13-94 | What a fork gives to the child and where it queues it, field by field. |
| SchedulerEffects.ParamEffect | libs/scheduler.c:280-325 | Which field each selector sets, and which values are refused. |
| SchedulerFairness.BoundedWaiting | libs/scheduler.c:451-673 | Under a first-in-first-out policy the process at position p of the front queue is dispatched, killed or stopped by the time p + 1 decisions have been taken, whatever else happens. |
| SchedulerFairness.NoStarvation | libs/scheduler.c:627-731 | Under the feedback queues a ready process is dispatched, killed or stopped within 1622 ticks, while none of the forks of a process that runs has failed. |
| SchedulerFairness.TakesTurns | libs/scheduler.c:451-481 | Under Round Robin the process at position p of the queue is dispatched, killed or stopped within 10(p + 1) ticks, and under the multilevel policies one of the first level within 20(p + 1), while none of the forks of a process that runs has failed. |
| SchedulerPriorities.AgingWinner | libs/scheduler.c:359-444 | The winner has slice left, and nobody who stays in the queue has more. |
| SchedulerPriorities.NoEpoch | libs/scheduler.c:410-432 | While a queued process that survives its signals has slice left no epoch is started. |
| SchedulerPriorities.RechargeBound | libs/scheduler.c:423-433 | Recharging never takes a counter above what it was or twice the priority. |
| SchedulerPriorities.AgingServes | libs/scheduler.c:359-444 | Under priority aging every ready process is dispatched, killed or stopped within 128 decisions, whatever its priority, its counter and later arrivals. |
| SchedulerEstimates.InsertKeepsSorted | libs/scheduler.c:147-192 | The sorted insertion keeps the order, with a newcomer behind everybody who is not longer. |
| SchedulerEstimates.RunSorted | libs/scheduler.c:147-209 | In every run of shortest-job-first the queue is sorted by estimate. |
| SchedulerEstimates.RunEstimates | libs/scheduler.c:812-828 | In every run the estimate of a process is the one it was created with, averaged with each of its measured bursts in turn, and the ticks counted for it are those since the last of them. |
| SchedulerEstimates.RunEstimateBetween | libs/scheduler.c:812-828 | So it stays between the least and the greatest of those. |
| SchedulerEstimates.RunEstimateConverges | libs/scheduler.c:812-828 | With bursts of b ticks it is b from above, or one short of b from below, exactly once there have been as many as the distance has binary digits. |
| ShortestJobFirst.RunArrivals | libs/scheduler.c:147-192 | Of two queued processes with the same estimate the one in front has been queued no later. |
| ShortestJobFirst.RunShortestFirst | libs/scheduler.c:591-619 | In every run of shortest-job-first every decision takes, of the processes that survive their signals, one with the least estimate, and of those the one that came first; it idles only when none survives. |
| SchedulerLottery.WinnerInterval | libs/scheduler.c:550-561 | A position wins exactly with the tickets of its own interval. |
| SchedulerLottery.ExactShare | libs/scheduler.c:530-561 | Of all the winning tickets each position wins with exactly as many as it holds, at least one. |
| SchedulerLottery.TotalFits | libs/scheduler.c:534-538 | With 63 processes queued the total fits a signed 64-bit number. |
| SchedulerLottery.RunTotalFits | libs/scheduler.c:534-538 | In every run the total that a decision counts does. |
| SchedulerLottery.ShiftBijective | libs/scheduler.c:500-503 | The generator's step is a bijection of the 64-bit states, and only zero goes to zero. |
| SchedulerLottery.Generator.Random | libs/scheduler.c:495-506 | The new state is the mixed one, or 88172645463325252 when that is zero, shifted left by 13, right by 7 and left by 17 and joined each time by exclusive or; it is never zero. |
| KernelScheduler.Scheduler.EnqueueProcess | libs/scheduler.c:199-233 | The linked queues and records change as `Enqueue` says. |
| KernelScheduler.Scheduler.HandleProcessSignals | libs/scheduler.c:834-866 | Signal 1 makes a zombie; otherwise 2 stops; otherwise 3 makes a stopped process ready; only that one is cleared and no other record changes. |
| KernelScheduler.Scheduler.SwitchToProcess | libs/scheduler.c:869-888 | As `SwitchTo` says: preemption is handed from the old to the new process. |
| KernelScheduler.Scheduler.ScheduleRoundRobin | libs/scheduler.c:451-481 | The loop over the linked queue ends in the state of `Pick`. |
| KernelScheduler.Scheduler.ScheduleQueueHead | libs/scheduler.c:591-619 | The same for first-come-first-served and shortest-job-first. |
| KernelScheduler.Scheduler.ScheduleMultilevel | libs/scheduler.c:627-673 | The same for the cascade of levels. |
| KernelScheduler.Scheduler.ScheduleLottery | libs/scheduler.c:515-582 | The same for the lottery: ticket count, walk and removal from the middle, draw after draw. |
| KernelScheduler.Scheduler.SchedulePriorityAging | libs/scheduler.c:359-444 | The same for priority aging: one pass with unlinking on the way, and epochs until somebody has slice left. |
| KernelScheduler.Scheduler.Reschedule | libs/scheduler.c:812-828 | `schedule`: the slice is given up, the estimate of a process that blocks or ends becomes its average with the burst, rounded towards zero, and the burst begins anew; then a decision follows. |
| KernelScheduler.Scheduler.OnTick | libs/scheduler.c:686-731 | The boost empties the lower levels into level 0 in order; the demotion moves the level of a process that has used up its slice. |
| KernelScheduler.Scheduler.HandleTimerTick | libs/scheduler.c:898-929 | The tick is counted; one that uses up the slice of a process that may be preempted ends in a decision under Round Robin, the lottery, priority aging and the multilevel policies, and never changes the current process under the other two. |
| KernelScheduler.Scheduler.ExitProcess | libs/scheduler.c:935-962 | The process is a zombie, exactly those who wait for it are ready and queued, no other record changes, and a decision follows. |
| KernelScheduler.Scheduler.SyscallWait | libs/syscalls.c:313-327 | -1 for an unknown process and 0 at once for a zombie, both without effect; otherwise the caller waits for that process and a decision follows. |
| KernelScheduler.Scheduler.SchedSetParam | libs/scheduler.c:280-325 | Each selector sets its own field, and a queue priority the level too, for the values allowed: at least 1, or 0 to 4; anything else, and anything for init, is refused without effect. |
| KernelScheduler.Scheduler.AddProcessToScheduler | libs/scheduler.c:239-270 | A new ready process is registered, given its level and queued. |
| KernelScheduler.Scheduler.CopyProcess | libs/fork.c:13-94 | A fork that fails leaves the preemption of the caller disabled once more and changes nothing else; one that succeeds adds a ready process with its parent's priority, tickets, queue priority and estimate, counter 10 and no signals, at the level of that priority, linked where its policy says, and leaves every other record as it was. |
| MessageRing.MessagesCircularBuffer.Push | libs/ipc.c:54-68 | -1 exactly when four messages wait, and then nothing changes; otherwise the message is put at the end of what waits, in the slot given by the number of messages pushed before, modulo five. |
| MessageRing.MessagesCircularBuffer.Pop | libs/ipc.c:82-100 | -1 exactly when nothing waits; otherwise the oldest message. |
| MessageRuns.RunHealthy | libs/ipc.c:9-100 | Over every run, under every policy: what a process has received followed by what waits for it is what was sent to it; at most four messages wait; a receiver only waits at an empty buffer and a sender only at a full one. |
| MessageRuns.RunFifo | libs/ipc.c:9-100 | A receiver has seen exactly the oldest of the messages sent to it, in order, all but at most four. |
| MessageRuns.RunHistories | libs/ipc.c:9-100 | What has been sent or received stays so. |
| MessageRuns.RunInside | libs/ipc.c:54-66 | Over every run no message has been written outside the declared array if and only if no process has been sent more than four, whatever it has received. |
| MessageRuns.FifthMessage | libs/ipc.c:54-66 | A run of eleven actions from boot in which a process has received each of its messages and its fifth goes to slot 4. |
| MessageRuns.RunEmptySlots | libs/ipc.c:42-50 | Over every run the process table has an empty slot exactly while fewer than 63 forks have registered a process. |
| MessageEffects.SendEffect | libs/ipc.c:9-26 | What an attempt to send does to every buffer and to the record of every process. |
| MessageEffects.ReceiveEffect | libs/ipc.c:29-51 | The same for an attempt to receive. |
| MessageCalls.MessageKernel.SendMessage | libs/ipc.c:9-26 | One attempt of `send_message` is the step `Sending` of those runs. It sends nothing to a process that does not exist and waits when four messages do; otherwise the message, with its sender's pid, is put at the end, in the slot told by the number of messages sent before modulo five, and exactly the destination is woken, if it waits for a message. |
| MessageCalls.MessageKernel.ReceiveMessage | libs/ipc.c:29-51 | One attempt of `receive_message` is the step `Receiving`: it waits exactly when nothing is there; otherwise it delivers and takes out the oldest message and wakes exactly those who wait to send. |

## Left out

Where a contract says less than the code does, or the model departs from it:

- FatChains.StretchGrows: says nothing about which free cluster is taken and when there is none; `FatVolume.Fat.StretchChain` does.
- MemoryManager.PageAllocator.CopyCode: says what stays untouched when a page is missing, not what the process has then; `copy_code` copies the bytes meant for such a page to address 0, and that store is not modelled.
- ProcessMemory.Machine.LoadProgram: the same holds for the process whose pages are not found.
- ProcessMemory.Machine.ExecProgram: the same holds for the process whose pages are not found.
- KernelScheduler.Scheduler.SendSignalTo: takes any flag number; what the shift does beyond the bits of an `int` is not modelled.

Hypotheses of the FAT part:

- Regions do not overlap and every cluster below `clustEnd` has its sectors on the device. `clustCnt` counts table entries, as the code does; a call that stretches the chain of a file or a directory is specified as long as its search meets no free entry from `clustEnd` on (`FatVolume.Backed`), which `FatAllocator.BackedIff` puts in terms of the table.
- Files and directories are treated on tables without broken entries (`Readable`), and so are the runs of the allocator; `GetFat`, `StretchChain` and `RemoveChain` are specified on every table.
- The allocation hint is a cluster number; `FatAllocator.ScanComesBack` shows what depends on it.
- Directories lie on a data region aligned to clusters; `FatOffsets.SectorTestExact` shows what depends on it.
- The copies of the table are mirrored when the second one is set. `fat_mount` derives that from a flag whose sense in the FAT specification is the opposite (`libs/fat32/fat.c:1085`); mounting is not part of this model.
- A disk transfer may fail at any time; contracts speak of runs in which none has failed so far, and otherwise promise what the code answers, which is an error but for `stretch_chain` and `create_chain`.
- First clusters of files and directories are at least 2; one handle is open at a time on the volume, with the directory entry outside its own chain.
- `DirSlots.AddFinds` is for names without 0x00 and 0xff; `DirSlots.SearchStops` shows what happens to the others.

Hypotheses of the kernel part:

- Kernel code between two events is atomic: the timer interrupt is an event of its own, and a system call runs up to the decision it ends in.
- MessageCalls.MessageKernel.ReceiveMessage: scans the registered processes; that `receive_message` reads through the empty slots as well is a finding, and what it reads there is not modelled.
- The ring has five slots; when the missing one is written is `MessageRuns.RunInside`, and what the write hits is not modelled.
- The loops that retry a message call are taken one attempt at a time. Bodies are terminated strings of fewer than 256 characters.
- Random numbers, the timer and the outcome of the search for a page for a PCB are inputs. A decision of the lottery is given enough random numbers.
- The init process only ticks, forks and yields. Registers and the stack are not modelled; a context switch is a change of the current process.
- A parameter set by a system call is a 32-bit number.
- Physical memory below the pool is page 0 alone. What is read through a table on page 0 is followed where only the last table is there; what a store through it does is not.

Not modelled:

- Paths, opening, creating and deleting by path, time stamps as dates, probing and mounting of volumes.
- `exec` reading the file and passing arguments; `map_sector`; the page-fault handler, which the code says is never reached.
- Drivers, interrupts, boot code, the console and the user programs.
