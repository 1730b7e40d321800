# A verified model of the TAOS kernel

TAOS is a small x86-64 kernel. This project models the parts of it that keep state across many calls, and
proves what those parts promise over every run:

- **The FAT16 file system** (`Bytes`, `Disk`, `Volume`, `Names`, `Directory`, `FileSystem`, `FileIO`,
  `FileRuns`, `Namespace`, `Tree`, `FatDevice`, `Fat16Driver`, `OpenFile`, `Format`, `OnDisk`, `Utf8Text`, `Meaning`,
  `Pruning`, `FatTheorems`, `FatWitnesses`). The driver works on the sectors of a block device. `Volume` reads those
  sectors as a FAT, a root directory and clusters; `FileSystem` gives them a meaning: which directory slot owns
  which chain of clusters. Each call of the driver is proved to take that meaning from one state to the next, and
  the theorems about runs are proved over those states. `Meaning` shows that the sectors determine the state, and
  after which calls they mean none; `Pruning` what is left when an entry is lost. `OnDisk` says in plain numbers which
  bytes of which sectors hold what, and which of them a call writes. `FatWitnesses` holds concrete
  inputs for the conditions listed below.
- **The event runner** of each core (`Events`, `EventLoop`, `EventWaiting`): four aging priority queues, a
  rewake queue that can duplicate events, and the set of pending events.
- **Processes** (`Processes`, `ProcessHandlers`): the process table, preemption and exit on any number of
  cores, as one transition system; and **their memory** (`PageTables`, `Teardown`, `ProcessMemory`,
  `Loader`): loading the segments of an executable, growing address spaces from the frame allocator, and giving
  them back.
- **Physical frames** (`Bitmap`, `Frames`, `MemoryMap`, `FrameAllocators`): the boot allocator, the bitmap
  allocator and the switch between them.
- **TLB shootdown** (`Tlb`): the mailbox and inter-processor interrupt protocol over any number of cores.

Code that updates fields in place is modelled by classes and methods with loops (`BlockDevice`, `Fat16`,
`Fat16File`, `EventRunner`, `Kernel`, `AddressSpaces`, `AddressSpace`, `BootFrameAllocator`,
`BitmapFrameAllocator`, `Cores`), each proved against specification functions; what the kernel promises is
then proved about those functions. Panics are a `None` step, an `ok` or `panics` result, or a lookup that is
proved to succeed.

`Basics` holds what several of these share.

## Where the code and its promise differ

Each of these is stated as the exact condition under which the code does what it is for, with an input that
fails it.

- A write succeeds exactly when the clusters of its file and the free ones that `Fat16File::allocate_cluster`
  looks at hold its bytes and one more (`OpenFile.Fat16File.Write`). That search range is measured as
  `data_start / cluster_size`, so a file can grow past its clusters only into a cluster c with `(c + 1) *
  cluster_size <= data_start`, and only if the data area starts at least three clusters in
  (`FatTheorems.GrowthExactly`, `FatTheorems.GrowthPossible`); on every device that `format` lays out a write
  succeeds exactly when it ends before the end of the chain the file already has
  (`FatTheorems.FormattedWrites`). A failed write has still written what fits.
- `Fat16File::write_fat_entry` changes the first FAT only, so equal FAT copies stay equal after a write exactly if
  it does not come to a cluster behind its file's chain (`OpenFile.Fat16File.Write`; `FatWitnesses.WriteGrows`).
- `create_file` and `create_dir` do not ask whether the parent is a directory. If it is a file, the new entry
  overwrites 32 bytes of that file (`FatTheorems.CreateAddsEntry`, `FatTheorems.MisplacedOverwrites`; for the
  path `A/B` with a file `A`: `FatWitnesses.CreateUnderFileOverwrites`).
- A name stored with 0xE5 or 0 as its first byte is written and not found afterwards; with 0 it also hides the
  live entries that stand behind it in its sector (`FatTheorems.StoredUnseen`, `Meaning.StoreExactly`; the
  character U+5000: `FatWitnesses.StoredAsDeleted`; a name that starts with byte 0: `FatWitnesses.StoredAsFree`,
  `FatWitnesses.FreeHides`).
- `create_file` of the path `""` or `/` stores an entry without a name, which no path reaches
  (`Tree.ReachableExactly`, `FatWitnesses.NamelessLost`).
- `create_file` accepts names of up to 12 bytes and keeps 8 and 3 of them, and `rename` names of any length, so
  two names can be stored as one (`FatTheorems.AddUniqueExactly`, `FatTheorems.RenameUniqueExactly`,
  `FatWitnesses.LongNamesTwice`); for names that fit, uniqueness is kept by every create and rename
  (`FatTheorems.CreateFileUnique` and the two beside it).
- `is_directory_empty` looks at the first sector only and skips whatever reads as a dot entry
  (`Fat16Driver.EmptinessTest`); a file created as `...` reads as `..` (`FatWitnesses.DotsDisguised`,
  `FatWitnesses.DisguisedPasses`), and an entry may lie in a later sector (`FatWitnesses.LaterPasses`). What is
  then lost is everything below the directory (`Pruning.RemoveDirExactly`).
- A path that ends in a dot component leads `remove_dir` and `rename` to a dot entry: the cluster of a directory
  that is still there becomes free, or a second live entry names it, and the sectors mean nothing any more
  (`Pruning.RemoveDirExactly`, `Meaning.RenameExactly`; `A/.`: `FatWitnesses.RemoveDotBreaks`,
  `FatWitnesses.RenameDotBreaks`). `remove_dir` of `A/..`, with `A` in the root, subtracts 2 from cluster 0
  (`Fat16Driver.Fat16.RemoveDir`, `FatWitnesses.DotResolves`).
- `rename` moves a directory into its own subtree and so cuts it off from the root (`Tree.StepRooted`; `A` to
  `A/B`: `FatWitnesses.RenameIntoItself`), and does not update `..` of a directory it moves elsewhere
  (`Tree.StepDots`), which dangles once the old parent is removed (`Tree.StepLeadsOn`, `Tree.MoveThenRemove`).
- `format` writes 0 as the 16-bit number of sectors from 65536 blocks on, and `allocate_cluster` then subtracts
  from that (`Format.PlannedWellFormed`).
- `seek_file` moves the position and not the current cluster (`FileIO.SeekCursor`,
  `FatWitnesses.SeekReadsWrong`).
- `free_frames` is counted twice at init, so `allocate_frame` returns `None` when as many frames are clear as
  the memory map has holes, and searches forever when memory is exhausted and there is a hole
  (`Frames.NoneMeansExhausted`, `MemoryMap.HoleGivesUp`, `MemoryMap.HoleNeverEnds`), although its comment
  promises `None` if no frame is available.
- `clear_bit` notices a double free only if all 64 frames of the word are free
  (`FrameAllocators.BitmapFrameAllocator.ClearBit`, `FrameAllocators.DoubleFreeUnseen`), although its comment
  says it asserts that the bit was set.
- The boot allocator reports the frames that follow its first one, which are the ones it handed out only if
  those lie in a row (`FrameAllocators.ReportsHandedOut`, `FrameAllocators.HandoffExactly`,
  `FrameAllocators.HandoffLoses`).
- An event that is first in line between the two halves of `schedule` is picked, dropped and never polled
  (`EventLoop.SplitSchedule`, `EventLoop.LostForGood`, `EventLoop.DropHappens`).
- An event waits at most a number of turns that grows with the wakes in the run
  (`EventWaiting.BoundedWaiting`); with any number of wakes it can wait forever (`EventWaiting.WakesStarve`).
- A shootdown keeps every stale translation accounted for exactly when no post writes over an address that the
  core still has to invalidate, or tells it of page 0 (`Tlb.StepInv`). Two shootdowns in a row, two at once, and
  one of page 0 each leave a stale translation behind (`Tlb.OverwriteLoses`, `Tlb.OverlapLoses`,
  `Tlb.PageZeroLoses`).
- A core that takes its shootdown interrupt while it holds the mailbox lock spins on that lock for good
  (`Tlb.StuckExactly`, `Tlb.StuckForGood`, `Tlb.SelfInterrupt`).
- A segment whose `p_vaddr` is not page aligned is shifted down to the start of its page
  (`Loader.UnalignedShifted`).

## Model

| member | source | states |
|---|---|---|
| `Disk.BlockDevice.ReadBlock` | kernel/src/filesys/block/memory.rs:42-47 | returns the block, or an I/O error for a block out of range or a buffer of the wrong size |
| `Disk.BlockDevice.WriteBlock` | kernel/src/filesys/block/memory.rs:50-55 | replaces that block and no other, with the same error cases |
| `Volume.WriteFat` | kernel/src/filesys/fat16/mod.rs:175-187 | writing an entry into a FAT sector changes that link of the volume and nothing else: no other link, directory or cluster |
| `Volume.WriteMirror` | kernel/src/filesys/fat16/mod.rs:189-193 | a write to the second FAT copy is invisible in the volume |
| `Volume.WriteDirSector` | kernel/src/filesys/fat16/mod.rs:198-238 | writing one sector of a directory, be it the root or a cluster, replaces that sector of its bytes and nothing else |
| `Volume.ClustersApart` | kernel/src/filesys/fat16/mod.rs:281-283 | the sectors of different clusters do not overlap |
| `Volume.MountRange` | kernel/src/filesys/fat16/mod.rs:265-269 | cluster c is in the range of Fat16::allocate_cluster exactly when data_start + (c + 1) * sectors_per_cluster <= total_sectors_16 |
| `Volume.GrowRange` | kernel/src/filesys/fat16/file.rs:248-252 | cluster c is in the range of Fat16File::allocate_cluster exactly when (c + 1) * cluster_size <= data_start |
| `Names.DecodeEncode` | kernel/src/filesys/fat16/dir_entry.rs:8-32 | an entry written as 32 bytes reads back as itself |
| `Names.EncodeDecode` | kernel/src/filesys/fat16/dir_entry.rs:8-32 | 32 bytes read as an entry write back as themselves |
| `Names.SlotLayout` | kernel/src/filesys/fat16/dir_entry.rs:6-32 | the byte offsets of a slot: name and extension at 0, attributes at 11, the first cluster little-endian at 26, the size little-endian at 28 |
| `Names.SlotMarks` | kernel/src/filesys/fat16/dir_entry.rs:65-78 | a slot is never used if its first byte is 0, deleted if that is 0xE5, and a directory if bit 4 of byte 11 is set |
| `Names.EncodedLayout` | kernel/src/filesys/fat16/dir_entry.rs:6-32 | an entry written as 32 bytes has its fields at those offsets |
| `Utf8Text.Utf8Spells` | kernel/src/filesys/fat16/dir_entry.rs:85-86 | the byte strings that pass as UTF-8 are exactly the encodings of sequences of Unicode scalar values, as section 3 of RFC 3629 defines them |
| `Names.NameRoundTrip` | kernel/src/filesys/fat16/dir_entry.rs:36-93 | splitting a name at its last dot, padding it into an entry and reading it back gives the name again exactly when base and extension fit 8 and 3 bytes, hold no space, and no dot stands before an empty extension |
| `Names.FieldsDiffer` | kernel/src/filesys/fat16/dir_entry.rs:36-57 | distinct 8.3 names give distinct 11-byte name fields |
| `Names.DirNameRoundTrip` | kernel/src/filesys/fat16/dir_entry.rs:59-64 | a directory name reads back exactly when it has at most 8 bytes and no space |
| `Directory.EarlyFindIsLookup` | kernel/src/filesys/fat16/mod.rs:362-407 | in a directory whose never-used slots come last in each sector, the search that stops at a never-used slot finds what a full scan finds |
| `Directory.PutTidy` | kernel/src/filesys/fat16/mod.rs:198-238 | writing over a used slot, or over the first free or deleted one, keeps never-used slots last |
| `Directory.StaysTidyExactly` | kernel/src/filesys/fat16/mod.rs:198-238 | writing any entry over the first usable slot keeps never-used slots last exactly when it does not itself read as never used in front of a used slot of its sector |
| `Directory.DeadStore` | kernel/src/filesys/fat16/mod.rs:362-407 | an entry that does not read as live, stored in the first usable slot, leaves find_entry_in_dir's result for every name as it was exactly when it does not read as never used in front of a live slot that was found; its own name is not found |
| `Directory.PutUnique` | kernel/src/filesys/fat16/mod.rs:411-443 | writing a name that a full scan does not find keeps names unique |
| `Directory.NoEntriesMeans` | kernel/src/filesys/fat16/mod.rs:332-360 | in a tidy sector the emptiness scan passes exactly when every live entry is a dot entry |
| `Directory.PathComponents` | kernel/src/filesys/fat16/mod.rs:412-415 | the components of a path are those of what stands before its last slash, followed by what stands after it |
| `FileSystem.ChainsDisjoint` | kernel/src/filesys/fat16/mod.rs:264-330 | under the invariant no cluster is in two chains or twice in one |
| `FileSystem.SetDataInv` | kernel/src/filesys/fat16/mod.rs:543-600 | overwriting a cluster keeps the invariant |
| `FileSystem.GrowInv` | kernel/src/filesys/fat16/file.rs:248-261 | linking a free cluster behind the last one of a file keeps the invariant |
| `FileSystem.AddInv` | kernel/src/filesys/fat16/mod.rs:411-474 | a new entry with a claimed cluster, in the first usable slot, keeps the invariant |
| `FileSystem.DropInv` | kernel/src/filesys/fat16/mod.rs:306-330 | freeing a chain and marking its entry deleted keeps the invariant |
| `FileSystem.MoveInv` | kernel/src/filesys/fat16/mod.rs:779-862 | an entry that takes a chain over in another slot keeps the invariant |
| `FileSystem.LeakInv` | kernel/src/filesys/fat16/mod.rs:264-279 | a claimed cluster that ends up in no chain keeps the invariant |
| `FileSystem.PutDeadInv` | kernel/src/filesys/fat16/mod.rs:198-238 | such an entry keeps the invariant exactly when its directory stays tidy |
| `FileSystem.DirImageFresh` | kernel/src/filesys/fat16/mod.rs:240-262 | what init_directory writes is a tidy directory with its two dot entries and nothing else |
| `FileIO.ChainSplice` | kernel/src/filesys/fat16/mod.rs:554-573 | overwriting part of one cluster of a chain overwrites the same bytes of what the whole chain spells |
| `FileIO.RoundText` | kernel/src/filesys/fat16/mod.rs:549-596 | a round of the write loop writes its chunk at the position and changes no other byte of the file |
| `FileIO.RoundCursor` | kernel/src/filesys/fat16/mod.rs:549-596 | after a round the current cluster is again the one of the position, and the chain has room for one byte more than the size |
| `FileIO.ReadBytes` | kernel/src/filesys/fat16/mod.rs:651-672 | the bytes of the current cluster from the position on are the file's next bytes |
| `FileIO.ReadMoves` | kernel/src/filesys/fat16/mod.rs:674-680 | a read that uses up its cluster always finds a next one: it never stops early at the end of the chain |
| `FileIO.SeekCursor` | kernel/src/filesys/fat16/mod.rs:602-637 | after a seek the current cluster is still the position's exactly when the new position lies in the same cluster |
| `FileIO.SizeFits` | kernel/src/filesys/fat16/file.rs:228-246 | no file of a sound volume outgrows the 32-bit size field |
| `FileRuns.RunInv` | kernel/src/filesys/fat16/mod.rs:264-330 | every run of create, write, remove and rename steps keeps all chains acyclic, ended, pairwise disjoint and clear of free clusters |
| `FileRuns.RunIsolates` | kernel/src/filesys/fat16/mod.rs:543-600 | whatever a run does, an entry none of its steps names keeps its slot, its chain, its FAT entries and its bytes |
| `FileRuns.UntouchedBytes` | kernel/src/filesys/fat16/mod.rs:543-600 | so the bytes of every other file stay the same |
| `FileRuns.RunAccounted` | kernel/src/filesys/fat16/mod.rs:264-330 | every run keeps the set of clusters that are free or in a live chain |
| `FileRuns.FreeSetRestored` | kernel/src/filesys/fat16/mod.rs:306-330 | a run that ends with the chains it began with ends with the same free clusters |
| `FileRuns.CreateWriteRemove` | kernel/src/filesys/fat16/mod.rs:306-330 | creating a file, writing to it in any way and removing it restores the free set |
| `FileRuns.RoundRun` | kernel/src/filesys/fat16/mod.rs:549-596 | a round of the write loop is a run of write steps on that file, and allocates nothing unless it fills the chain |
| `FileRuns.WritesTake` | kernel/src/filesys/fat16/mod.rs:543-600 | over any run of write steps the chain keeps its length exactly if no cluster is taken, and if one is, the FAT is another one |
| `Namespace.ResolveOwner` | kernel/src/filesys/fat16/mod.rs:285-304 | a path resolves to a live entry that owns a chain, or ends in a dot component and leads to a directory, or fails as not found or invalid; with dot components as long as none is left dangling |
| `Namespace.ResolveLast` | kernel/src/filesys/fat16/mod.rs:285-304 | resolving a path is resolving its parent and looking the last name up there, with the error of the parent if that fails |
| `Namespace.AbsentInParent` | kernel/src/filesys/fat16/mod.rs:426-440 | if a path does not resolve although its parent is a directory, the name is not in that directory: the check create and rename rely on is exact |
| `Namespace.RunUnique` | kernel/src/filesys/fat16/mod.rs:411-474 | names stay unique in every directory over every run whose creates and renames bring new names, which FatTheorems.CreateIsNew, CreateDirIsNew and RenameIsNew show of the calls |
| `Tree.Resolvable` | kernel/src/filesys/fat16/mod.rs:285-304 | in a tree with unique names every live entry is what the list of names from the root down to it resolves to |
| `Tree.JoinComponents` | kernel/src/filesys/fat16/mod.rs:287-288 | every list of names that are not empty and have no slash is the component list of a path |
| `Tree.ReachableExactly` | kernel/src/filesys/fat16/mod.rs:285-304 | with right dot entries, some path leads to a live entry exactly when no name on the way to it is empty or has a slash |
| `Tree.UnspelledLost` | kernel/src/filesys/fat16/mod.rs:285-304 | an entry whose own name is empty or has a slash is reached by no path, on any volume |
| `Tree.StepRooted` | kernel/src/filesys/fat16/mod.rs:779-862 | a step keeps the directories a tree exactly when it does not move a directory into its own subtree |
| `Tree.SelfMoveUproots` | kernel/src/filesys/fat16/mod.rs:779-862 | such a move leaves no way to order the directories by depth: the moved one no longer hangs from the root |
| `Tree.RunRooted` | kernel/src/filesys/fat16/mod.rs:779-862 | over every run without such moves the directories stay a tree |
| `Tree.RunResolvable` | kernel/src/filesys/fat16/mod.rs:285-304 | after every run without self-moves that brings new names only, each nonempty and without a slash, some path leads to each live file and directory |
| `Tree.DirImageDots` | kernel/src/filesys/fat16/mod.rs:240-262 | the dot entries init_directory writes name the new cluster and its parent |
| `Tree.StepDots` | kernel/src/filesys/fat16/mod.rs:779-862 | a step leaves every dot entry naming its directory and the one that holds it exactly when it moves no directory to another one |
| `Tree.RunDots` | kernel/src/filesys/fat16/mod.rs:779-862 | so the dot entries are right after every run without such moves |
| `Tree.StepLeadsOn` | kernel/src/filesys/fat16/mod.rs:306-330 | a step leaves every dot entry leading to a directory exactly when it does not remove one that the ".." of another still names |
| `Tree.RunLeadsOn` | kernel/src/filesys/fat16/mod.rs:306-330 | so no dot entry dangles after any run without such removals |
| `Tree.MoveThenRemove` | kernel/src/filesys/fat16/mod.rs:779-862 | moving a directory away and then removing its old parent leaves its ".." dangling |
| `Tree.RootOnly` | kernel/src/filesys/fat16/mod.rs:42-129 | a volume with a root directory only, such as format leaves, is a tree with right dot entries |
| `FatDevice.ReadFatEntry` | kernel/src/filesys/fat16/mod.rs:161-173 | reads the link of that cluster |
| `FatDevice.WriteFirstFat` | kernel/src/filesys/fat16/file.rs:205-226 | changes one link of the first FAT copy and no other block |
| `FatDevice.WriteFatEntry` | kernel/src/filesys/fat16/mod.rs:175-196 | changes one link, makes the whole sector it touched equal in both copies again, and keeps equal copies equal |
| `FatDevice.MirroredAgain` | kernel/src/filesys/fat16/file.rs:205-226 | two equal FAT copies of which only the first was written are equal again only if its links are what they were |
| `FatDevice.FindFreeCluster` | kernel/src/filesys/fat16/mod.rs:265-271 | the lowest free cluster of the range, or its end |
| `FatDevice.AllocateCluster` | kernel/src/filesys/fat16/mod.rs:264-279 | takes the lowest free cluster c from 2 on with data_start + (c + 1) * sectors_per_cluster <= total_sectors_16 as the end of a chain, in both copies; fails with NotSupported exactly when no such cluster is free |
| `FatDevice.GrowCluster` | kernel/src/filesys/fat16/file.rs:248-261 | takes the lowest free cluster c from 2 on with (c + 1) * cluster_size <= data_start, in the first copy only; fails with NoSpace, and writes nothing, exactly when no such cluster is free |
| `FatDevice.FindInSector` | kernel/src/filesys/fat16/mod.rs:385-403 | the first live slot of the sector with the name, unless a never-used slot comes first |
| `FatDevice.FindEntryInDir` | kernel/src/filesys/fat16/mod.rs:362-407 | the entry the early-stopping search finds and its byte position on the device, over all sectors, or not found |
| `FatDevice.FindUsableSlot` | kernel/src/filesys/fat16/mod.rs:213-232 | the first free or deleted slot of the directory, or the number of slots |
| `FatDevice.WriteDirEntry` | kernel/src/filesys/fat16/mod.rs:198-238 | the first usable slot takes the entry and nothing else of the volume changes; a full directory is an error and changes nothing |
| `FatDevice.PatchSlot` | kernel/src/filesys/fat16/file.rs:228-246 | replaces the given bytes of one slot and nothing else, and touches no FAT sector |
| `FatDevice.IsDirectoryEmpty` | kernel/src/filesys/fat16/mod.rs:332-360 | whether the first sector of the directory has no entry but the dot entries |
| `FatDevice.ReadCluster` | kernel/src/filesys/fat16/mod.rs:655-665 | the bytes of the cluster's sectors in order |
| `FatDevice.WriteCluster` | kernel/src/filesys/fat16/mod.rs:569-573 | replaces the bytes of that cluster and nothing else |
| `Fat16Driver.Fat16.FindEntry` | kernel/src/filesys/fat16/mod.rs:285-304 | finds exactly the entry the path resolves to in the directory tree, dot components included as long as none dangles, with its position, or the same error |
| `Fat16Driver.Fat16.Find` | kernel/src/filesys/fat16/mod.rs:362-407 | in a directory of a valid volume: what a full scan finds |
| `Fat16Driver.Fat16.Claim` | kernel/src/filesys/fat16/mod.rs:264-279 | on a valid volume: the lowest free cluster whose sectors are counted by total_sectors_16 is taken and belongs to no chain yet, or NotSupported if none is free |
| `Fat16Driver.Fat16.FindParent` | kernel/src/filesys/fat16/mod.rs:434-438 | the cluster a new entry goes to: the root, or the first cluster of whatever the parent path names |
| `Fat16Driver.Fat16.Place` | kernel/src/filesys/fat16/mod.rs:440 | a full directory fails and changes nothing; otherwise the first usable slot holds the entry and, unless that hides slots behind it, the volume is valid: the claimed cluster belongs to the entry, or is lost if the entry does not read as live |
| `Fat16Driver.Fat16.CreateFile` | kernel/src/filesys/fat16/mod.rs:411-443 | every outcome: too long a name, an existing path, no cluster, no parent, no slot (each with its error and, after the allocation, one lost cluster), the new entry in the parent, or a lost cluster for a name stored as deleted; the volume is valid unless the stored entry hides slots behind it; for every name the exact sectors of a successful call |
| `Fat16Driver.Fat16.InitDirectory` | kernel/src/filesys/fat16/mod.rs:240-262 | the cluster holds "." and ".." and zeros, and nothing else changed |
| `Fat16Driver.Fat16.PlaceDir` | kernel/src/filesys/fat16/mod.rs:469-471 | the cluster is initialised before any entry names it; then a full parent fails, or the new directory is in the tree |
| `Fat16Driver.Fat16.CreateDir` | kernel/src/filesys/fat16/mod.rs:445-474 | every outcome as for a file, and on success a tidy new directory in the tree; for every name the exact sectors of a successful call |
| `Fat16Driver.Fat16.FreeChain` | kernel/src/filesys/fat16/mod.rs:321-327 | the loop ends on every well-formed chain and frees exactly its clusters |
| `Fat16Driver.Fat16.RemoveEntry` | kernel/src/filesys/fat16/mod.rs:306-330 | error cases change nothing; otherwise exactly the chain the entry names is freed and the entry marked deleted on disk, dot entries included, and for a file or an empty directory that is its removal from the tree |
| `Fat16Driver.Fat16.EraseOnDisk` | kernel/src/filesys/fat16/mod.rs:313-327 | the writes mark the entry deleted and free exactly the chain it names, and change nothing else on the volume |
| `Fat16Driver.Fat16.DropOnDisk` | kernel/src/filesys/fat16/mod.rs:306-330 | for a file or an empty directory those writes are the removal of the entry from the tree |
| `Fat16Driver.Fat16.RemoveFile` | kernel/src/filesys/fat16/mod.rs:476-478 | removes a file and refuses a directory; the volume stays valid and the FAT copies equal |
| `Fat16Driver.Fat16.RemoveDir` | kernel/src/filesys/fat16/mod.rs:480-492 | panics exactly for a directory entry that names cluster 0, refuses a file, refuses a directory with an entry in its first sector, and otherwise frees the cluster and marks the entry; an empty directory leaves the tree, unless the path leads to a dot entry |
| `Fat16Driver.EmptinessTest` | kernel/src/filesys/fat16/mod.rs:332-360 | an empty directory passes; one that passes is empty exactly when no live entry lies beyond its first sector and none in that sector reads as a dot entry |
| `Fat16Driver.FirstSectorTest` | kernel/src/filesys/fat16/mod.rs:332-360 | the test passes exactly when every live entry of the first sector, beside the two dot entries, reads as one of them |
| `Fat16Driver.Fat16.RenameCheck` | kernel/src/filesys/fat16/mod.rs:779-847 | the checks of rename in their order, and what they find: the entry, its position, the destination directory and the first usable slot |
| `Fat16Driver.Fat16.RenameEntry` | kernel/src/filesys/fat16/mod.rs:779-862 | every outcome of the checks; on success the exact two slot writes, and for a name that reads as live under a directory, and a source that is not a dot entry, the chain belongs to the new name there and the old slot is deleted |
| `Fat16Driver.Fat16.MoveOnDisk` | kernel/src/filesys/fat16/mod.rs:849-859 | writing the new entry and then the deletion mark is the move of the chain to the new slot, also when both slots share a sector |
| `OpenFile.OpenFileAt` | kernel/src/filesys/fat16/mod.rs:494-525 | opens the file a path resolves to at position 0, and refuses directories |
| `OpenFile.Fat16File.PutChunk` | kernel/src/filesys/fat16/mod.rs:550-578 | the chunk replaces the bytes from the position on in the current cluster, and position and size move |
| `OpenFile.Fat16File.Advance` | kernel/src/filesys/fat16/mod.rs:580-595 | after a full cluster the cursor moves to the next one of the chain, or to a newly linked one, or fails with NoSpace exactly at the last cluster when the search range has no free one; what is within reach stays the same |
| `OpenFile.Fat16File.Extend` | kernel/src/filesys/fat16/mod.rs:583-592 | the lowest free cluster of its range is linked behind the chain, in the first FAT copy only; NoSpace exactly if there is none |
| `OpenFile.Fat16File.WriteRound` | kernel/src/filesys/fat16/mod.rs:549-596 | one round writes its chunk into the file, as a run of steps on that file only, also when it fails |
| `OpenFile.Fat16File.WriteLoop` | kernel/src/filesys/fat16/mod.rs:547-596 | the loop writes all of the buffer, or fails having written exactly the part that fits within reach |
| `OpenFile.Fat16File.UpdateEntry` | kernel/src/filesys/fat16/file.rs:228-246 | the entry on disk has the new size, and the file's bytes are unchanged |
| `OpenFile.Fat16File.Write` | kernel/src/filesys/fat16/mod.rs:543-600 | succeeds exactly when the file's clusters and the free ones its allocator looks at hold the bytes and one more; then it changes exactly bytes [position, position + len), returns len, and restores cursor and size; otherwise NoSpace, with the prefix up to the last cluster within reach written, position and size there, the entry on disk unchanged and the volume valid; one that allocates nothing keeps the FAT copies equal; equal FAT copies stay equal exactly when the write does not come to a cluster behind its file's chain |
| `OpenFile.WriteFits` | kernel/src/filesys/fat16/mod.rs:543-600 | a write that ended with a valid cursor did fit |
| `OpenFile.WriteFails` | kernel/src/filesys/fat16/mod.rs:543-600 | one that used up what is within reach did not, and ended at the last byte within reach |
| `FileIO.GrowReach` | kernel/src/filesys/fat16/file.rs:248-261 | linking a free cluster of the search range into the chain leaves the number of clusters within reach as it was |
| `OpenFile.Fat16File.Read` | kernel/src/filesys/fat16/mod.rs:639-684 | returns exactly the next min(len, size - position) bytes of the file and leaves a valid cursor behind them |
| `OpenFile.Fat16File.ReadRound` | kernel/src/filesys/fat16/mod.rs:650-681 | a round returns the file's next bytes, makes progress, and never meets the end of the chain |
| `OpenFile.Fat16File.Seek` | kernel/src/filesys/fat16/mod.rs:602-637 | from the start the target is the offset, from the current place the position plus the delta, from the end the size plus the delta; a target between 0 and the size becomes the position and the result, and any other is InvalidOffset and moves nothing |
| `Format.MountReadsFormat` | kernel/src/filesys/fat16/mod.rs:131-159 | the boot sector format writes gives back, when mounted, the geometry it was written with, for every device whose FAT size fits its 16-bit field |
| `Format.PlannedWellFormed` | kernel/src/filesys/fat16/mod.rs:42-129 | boot sector, both FATs, root directory and data follow one another on the device; allocate_cluster can compute its range, and every cluster it can return has its FAT entry in one copy and its sectors on the device, exactly below 65536 blocks |
| `Format.ClusterSectorsDisjoint` | kernel/src/filesys/fat16/mod.rs:281-283 | no cluster shares a sector with another, or with the areas in front of the data |
| `Format.FormatSectors` | kernel/src/filesys/fat16/mod.rs:95-129 | on every device from 37 blocks on whose FAT size fits, the sectors mean an empty tree with the planned geometry, equal FAT copies and every cluster free; sector 0 has the smallest sectors_per_fat f with (blocks - 33) / 4 <= 256 f, and the FATs and the root directory stand behind it in that size; the data area is not written |
| `Format.BootPlanned` | kernel/src/filesys/fat16/mod.rs:53-95 | the boot sector in numbers: four sectors a cluster, one reserved, two FATs, the 16-bit sector count or 0, and the smallest FAT that has a link for every four sectors behind the first 33 |
| `Format.FormatDevice` | kernel/src/filesys/fat16/mod.rs:42-129 | below 65536 blocks: a valid empty volume with the planned geometry and that boot sector, equal FAT copies and every cluster free, that mounts as itself |
| `Format.WriteLayout` | kernel/src/filesys/fat16/mod.rs:95-127 | the writes of format leave the boot sector, the heads of both FATs, zeros in the rest of both FATs and in the root directory, and every other sector as it was |
| `Format.Mount` | kernel/src/filesys/fat16/mod.rs:131-159 | mounting any device whose boot sector gives a sound geometry gives the volume its sectors mean |
| `Format.Remount` | kernel/src/filesys/fat16/mod.rs:131-159 | mounting a device again after any calls of a driver gives back its geometry, files and directories, and equal FAT copies if they were equal |
| `OnDisk.FatBytes` | kernel/src/filesys/fat16/mod.rs:161-173 | the link of cluster c is the little-endian word at byte 2 (c % 256) of sector c / 256 of the FAT |
| `OnDisk.RootBytes` | kernel/src/filesys/fat16/mod.rs:362-383 | byte k of the root directory is byte k % 512 of its sector k / 512, for 16384 bytes |
| `OnDisk.ClusterBytes` | kernel/src/filesys/fat16/mod.rs:281-283 | byte k of cluster c is byte k % 512 of sector data_start + (c - 2) * sectors_per_cluster + k / 512 |
| `OnDisk.BootLayout` | kernel/src/filesys/fat16/mod.rs:131-159 | which boot sector bytes mounting reads, and where it puts the FAT, the root directory and the data area |
| `OnDisk.ChainIs` | kernel/src/filesys/fat16/fat_entry.rs:10-20 | a chain follows the links to one that is 0xFFF8 or more |
| `OnDisk.SlotName` | kernel/src/filesys/fat16/dir_entry.rs:80-93 | the name of a slot is what stands before the first space of each part, with a dot between them if the extension is not empty; a part that is not UTF-8 counts as empty |
| `OnDisk.FileSlot` | kernel/src/filesys/fat16/mod.rs:411-443 | the 32 bytes create_file stores for a path: eight and three bytes of what stands before and behind the last dot of its last part, padded with spaces, attributes 0x20, the cluster, and zeros |
| `OnDisk.DirSlot32` | kernel/src/filesys/fat16/mod.rs:445-474 | the same for create_dir, with the whole last part as name and attributes 0x10 |
| `OnDisk.RenamedSlot` | kernel/src/filesys/fat16/mod.rs:786-808 | rename stores the new name and the other 21 bytes of the old entry |
| `OnDisk.DirClusterBytes` | kernel/src/filesys/fat16/mod.rs:240-262 | a new directory cluster holds "." with its own cluster, ".." with its parent's, and zeros |
| `OnDisk.CreatedBytes` | kernel/src/filesys/fat16/mod.rs:411-443 | a successful create_file takes the lowest free cluster, writes 0xFFFF as its link and those 32 bytes over the first slot of the parent whose first byte is 0 or 0xE5, and nothing else |
| `OnDisk.CreatedDirBytes` | kernel/src/filesys/fat16/mod.rs:445-474 | the same for create_dir, which has written the new cluster before |
| `OnDisk.RemovedBytes` | kernel/src/filesys/fat16/mod.rs:306-330 | remove_entry writes 0xE5 over one byte and 0 over the links of the chain, and nothing else |
| `OnDisk.RenamedBytes` | kernel/src/filesys/fat16/mod.rs:779-862 | a successful rename writes 32 bytes over the first open slot of the new parent, then 0xE5 over the first byte of the old slot, and nothing else |
| `Meaning.MeansOne` | kernel/src/filesys/fat16/mod.rs:131-159 | the sectors determine the tree: two rooted states with the invariant that one volume can mean have equal directories, chains and owners |
| `Meaning.StoreExactly` | kernel/src/filesys/fat16/mod.rs:198-238 | an entry stored so that it does not read as live leaves a sound volume exactly when its directory stays tidy |
| `Meaning.DotRemoved` | kernel/src/filesys/fat16/mod.rs:306-330 | after the removal of a dot entry the sectors mean nothing: the entry of the directory it names is still there, and its cluster is free |
| `Meaning.RenameExactly` | kernel/src/filesys/fat16/mod.rs:779-862 | a rename under a directory to a name that reads as live leaves a sound volume exactly when its source is not a dot entry; otherwise two live entries name one cluster, or one names cluster 0 |
| `Pruning.PrunedMeans` | kernel/src/filesys/fat16/mod.rs:306-330 | with an entry marked deleted, whatever becomes of its own links, the sectors mean the tree without that file, or without that directory and everything below it |
| `Pruning.RemoveDirExactly` | kernel/src/filesys/fat16/mod.rs:480-492 | remove_dir of any directory its test lets pass leaves a sound volume exactly when the path does not lead to a dot entry, and what is left lacks the directory and everything below it |
| `Pruning.RenameIntoFile` | kernel/src/filesys/fat16/mod.rs:814-859 | a rename whose destination's parent is a file leaves a sound volume that lacks what was renamed |
| `FatTheorems.OtherFilesKeep` | kernel/src/filesys/fat16/mod.rs:543-600 | a run on other files keeps an open file's cursor right and its bytes the same |
| `FatTheorems.CreateIsNew` | kernel/src/filesys/fat16/mod.rs:411-443 | a successful create of a valid 8.3 name brings a name its directory did not have |
| `FatTheorems.CreateDirIsNew` | kernel/src/filesys/fat16/mod.rs:445-474 | a successful create_dir of a name of at most 8 bytes without spaces brings a name its directory did not have |
| `FatTheorems.RenameIsNew` | kernel/src/filesys/fat16/mod.rs:779-862 | so does a successful rename to a valid 8.3 name |
| `FatTheorems.CreateFileUnique` | kernel/src/filesys/fat16/mod.rs:411-443 | whatever comes of create_file with a valid name, names stay unique in every directory |
| `FatTheorems.CreateDirUnique` | kernel/src/filesys/fat16/mod.rs:445-474 | the same for create_dir |
| `FatTheorems.RenameUnique` | kernel/src/filesys/fat16/mod.rs:779-862 | the same for a rename that fails, or moves an entry other than a dot entry to a directory |
| `FatTheorems.AddUniqueExactly` | kernel/src/filesys/fat16/mod.rs:411-474 | for any name, a create keeps names unique exactly when the name as stored is not in the directory |
| `FatTheorems.RenameUniqueExactly` | kernel/src/filesys/fat16/mod.rs:779-862 | a rename keeps names unique exactly when the name as stored is not in the directory, or was the entry's own |
| `FatTheorems.CreateThenFind` | kernel/src/filesys/fat16/mod.rs:285-304 | after a create in a directory, looking the path up finds exactly the new entry |
| `FatTheorems.ResolveStable` | kernel/src/filesys/fat16/mod.rs:285-304 | a path that led somewhere before a name was added leads there still |
| `FatTheorems.CreateAddsEntry` | kernel/src/filesys/fat16/mod.rs:434-440 | a create that succeeds adds an entry to the tree exactly when the parent is a directory and the name reads as live |
| `FatTheorems.MisplacedOverwrites` | kernel/src/filesys/fat16/mod.rs:434-440 | otherwise it overwrites 32 bytes of the file named as the parent |
| `FatTheorems.GrowthPossible` | kernel/src/filesys/fat16/file.rs:248-261 | a write that ends in the cluster behind its file's chain succeeds exactly when some cluster c from 2 on is free with (c + 1) * cluster_size <= data_start; so only if the data area starts three clusters in or later |
| `FatTheorems.GrowthExactly` | kernel/src/filesys/fat16/file.rs:248-261 | such a write succeeds exactly when the search range has a free cluster |
| `FatTheorems.FormattedWrites` | kernel/src/filesys/fat16/file.rs:248-261 | on every device below 65536 blocks that format lays out, a write succeeds exactly when it ends before the end of its file's chain; and it never takes a cluster, so equal FAT copies stay equal |
| `FatTheorems.StoredUnseen` | kernel/src/filesys/fat16/mod.rs:362-407 | an entry whose first byte marks a free or deleted slot is in the directory and find_entry_in_dir does not find it; it finds every other name where it was exactly when the entry does not read as never used in front of a live slot that was found |
| `FatWitnesses.DotsDisguised` | kernel/src/filesys/fat16/mod.rs:411-443 | create_file takes the path /A/... and stores a live entry that reads as ".." |
| `FatWitnesses.DisguisedPasses` | kernel/src/filesys/fat16/mod.rs:332-360 | in a fresh directory that entry is the only one, and the emptiness test passes |
| `FatWitnesses.LaterPasses` | kernel/src/filesys/fat16/mod.rs:332-360 | a directory with an entry in its second sector passes the test |
| `FatWitnesses.LongNamesCollide` | kernel/src/filesys/fat16/dir_entry.rs:36-57 | names of 9 to 12 bytes without a dot that agree in the first 8 are stored alike |
| `FatWitnesses.LongNamesTwice` | kernel/src/filesys/fat16/mod.rs:411-443 | on a volume with unique names, two creates of different new names both succeed, and then names are not unique |
| `FatWitnesses.SeekReadsWrong` | kernel/src/filesys/fat16/mod.rs:602-637 | a volume and an open file in which a seek to 512 leaves a cluster whose byte there is not the file's |
| `FatWitnesses.WriteGrows` | kernel/src/filesys/fat16/file.rs:205-226 | a write of 424 bytes at position 600 of a file of two 512-byte clusters takes a cluster, on a volume with two FATs; one of 423 does not |
| `FatWitnesses.CreateUnderFile` | kernel/src/filesys/fat16/mod.rs:434-440 | on a volume with a file A, create_file of A/B passes all checks with A's first cluster as the parent directory |
| `FatWitnesses.CreateUnderFileOverwrites` | kernel/src/filesys/fat16/mod.rs:434-440 | it succeeds, adds no entry, and changes the first byte of A |
| `FatWitnesses.RenameIntoItself` | kernel/src/filesys/fat16/mod.rs:779-862 | on every volume with a directory A that has a free slot and no B, renaming A to A/B succeeds and the directories are no longer a tree |
| `FatWitnesses.StoredAsDeleted` | kernel/src/filesys/fat16/mod.rs:411-443 | the name U+5000 fits 8.3, is valid UTF-8, and is stored as a deleted entry |
| `FatWitnesses.StoredAsFree` | kernel/src/filesys/fat16/mod.rs:411-443 | a name that starts with byte 0 fits 8.3, is valid UTF-8, and is stored as a never-used slot |
| `FatWitnesses.FreeHides` | kernel/src/filesys/fat16/mod.rs:393-395 | stored over a deleted entry it makes the live entry behind it unfindable |
| `FatWitnesses.NamelessLost` | kernel/src/filesys/fat16/mod.rs:411-443 | create_file of "" or "/" succeeds wherever a create in the root can, and no path reaches what it creates |
| `FatWitnesses.DotResolves` | kernel/src/filesys/fat16/mod.rs:285-304 | with a directory A in the root, A/. leads to a dot entry that names A's cluster, and A/.. to one that names cluster 0 |
| `FatWitnesses.RemoveDotBreaks` | kernel/src/filesys/fat16/mod.rs:480-492 | remove_dir of A/. for an empty A passes the test and leaves sectors that mean nothing |
| `FatWitnesses.RenameDotBreaks` | kernel/src/filesys/fat16/mod.rs:779-862 | rename of A/. into the root leaves two live entries that name A's cluster, and sectors that mean nothing |
| `Events.AlwaysPicks` | kernel/src/events/event_runner.rs:40-45 | in a sound state with anything pending, next_event finds an event |
| `Events.AgedQueues` | kernel/src/events/event_runner.rs:130-147 | reprioritize for all levels at once: exactly the fronts of levels 1 to 3 that have waited five turns go to the back of the level above, an event that is the front of two levels only once |
| `Events.AgedFields` | kernel/src/events/event_runner.rs:130-147 | exactly those events get the new level and the time of the move |
| `Events.StepSound` | kernel/src/events/event_runner.rs:33-101 | turns of the loop, schedules and wakes, also in the middle of a poll, keep for every pending event exactly one copy plus one per rewoken poll that returned Pending |
| `Events.RunSound` | kernel/src/events/event_runner.rs:33-101 | so does every run |
| `Events.ExpectNeverFails` | kernel/src/events/event_runner.rs:42-45 | in no run from the start does the loop panic for want of an event |
| `Events.CompletedNeverPolled` | kernel/src/events/event_runner.rs:47-66 | a completed event is never polled again in any run, however many stale copies are queued or woken |
| `Events.ReprioritizeTotal` | kernel/src/events/event_runner.rs:130-147 | aging moves events between levels and loses or doubles none |
| `Events.NextTotal` | kernel/src/events/event_runner.rs:149-167 | next_event takes out exactly the event it picks, and nothing from the priority queues if that was rewoken |
| `EventLoop.EventRunner.Schedule` | kernel/src/events/event_runner.rs:78-101 | takes the schedule step and returns an event that was not pending before |
| `EventLoop.EventRunner.Wake` | kernel/src/events/event.rs:26-31 | puts the event in the rewake queue, alive or not |
| `EventLoop.EventRunner.TryPop` | kernel/src/events/event_runner.rs:122-124 | takes the front of that queue, if any, and changes no other queue |
| `EventLoop.EventRunner.Enqueue` | kernel/src/events/event_runner.rs:126-128 | puts the event at the back of that queue |
| `EventLoop.EventRunner.Reprioritize` | kernel/src/events/event_runner.rs:130-147 | the loop ages the levels in order, each front that waited 5 turns moving up one level with a new clock |
| `EventLoop.EventRunner.NextEvent` | kernel/src/events/event_runner.rs:149-167 | the oldest rewoken event, or after aging the oldest event of the first level that has one |
| `EventLoop.EventRunner.BeginTurn` | kernel/src/events/event_runner.rs:35-55 | the loop body up to the poll takes the Begin step; its expect is proved |
| `EventLoop.EventRunner.FinishTurn` | kernel/src/events/event_runner.rs:59-68 | the loop body after the poll takes the Finish step and keeps the copies invariant |
| `EventLoop.SplitSchedule` | kernel/src/events/event_runner.rs:95-99 | a turn between the enqueue and the insert leaves the runner sound exactly when the new event is not first in line: something was rewoken, or something waits on its level or one before it |
| `EventLoop.PicksNew` | kernel/src/events/event_runner.rs:149-167 | next_event picks the new event exactly when nothing was rewoken and nothing waits on its level or one before it; aging does not overtake it |
| `EventLoop.DroppedIsLost` | kernel/src/events/event_runner.rs:95-99 | if it is first in line, the event is pending with no copy anywhere |
| `EventLoop.LostStays` | kernel/src/events/event_runner.rs:33-101 | one step leaves such an event pending and does not poll it, short of waking it |
| `EventLoop.LostForGood` | kernel/src/events/event_runner.rs:33-101 | over every run that does not wake it, such an event stays pending and is never polled |
| `EventLoop.DropHappens` | kernel/src/events/event_runner.rs:95-99 | there is a run in which this happens |
| `EventWaiting.QueueBound` | kernel/src/events/event_runner.rs:77-101 | a queue is no longer than the number of live events plus the copies wakes have left |
| `EventWaiting.LoadAges` | kernel/src/events/event_runner.rs:130-147 | aging one of at most w + 1 copies of an event lowers a weight of all of them, even where the copies that are polled go back to the level it came to |
| `EventWaiting.PromoteWeighs` | kernel/src/events/event_runner.rs:130-147 | so aging an event of which wakes left more than one copy can happen only so often |
| `EventWaiting.StepWait` | kernel/src/events/event_runner.rs:130-167 | every turn that polls another event lowers the number of turns a waiting event may still wait, every other step does not raise it, and a wake raises it by a fixed amount |
| `EventWaiting.RunOwed` | kernel/src/events/event_runner.rs:33-101 | what the wakes of a run can still cost grows only with their number |
| `EventWaiting.BoundedWaiting` | kernel/src/events/event_runner.rs:130-167 | in every run from the start with at most w wakes and, from then on, at most n events alive, an event that waits on level p is polled within p*(n+w+5) + n + w + w*(12*(w*w+3*w+3)+2) turns, whatever is scheduled or woken and however polls turn out |
| `EventWaiting.WakesStarve` | kernel/src/events/event_runner.rs:149-152 | with any number of wakes there is, for every n, a run of n turns that never polls a given event |
| `Processes.Alone` | kernel/src/processes/process.rs:238-280 | no process is loaded or running on two cores |
| `Processes.NoPanic` | kernel/src/interrupts/idt.rs:278-343 | in every state that satisfies the invariant the table lookups of run, timer and exit succeed |
| `Processes.StepInv` | kernel/src/interrupts/idt.rs:278-343 | create, schedule, pick, enter, user, timer, exit and return steps on any core keep the invariant |
| `Processes.RunInv` | kernel/src/interrupts/idt.rs:278-343 | so no run panics, and every run keeps it |
| `Processes.EveryProcessPlaced` | kernel/src/processes/process.rs:238-280 | the invariant places every process of the table by its state |
| `Processes.ProcessSafety` | kernel/src/syscalls/syscall_handlers.rs:9-34 | from boot on any number of cores: one live event for each scheduled process that has not exited and none for any other, no process on two cores, each process runs with the registers it last had, and every process of the table is where its state says: Running on exactly one core, New or Blocked with its event waiting or loaded, or not yet scheduled |
| `Processes.EntryAfter` | kernel/src/interrupts/idt.rs:278-343 | what any step makes of any process: New when created, Running when entered, Blocked with the registers of the moment exactly when the timer finds it in user mode, gone when it exits, and otherwise as it was |
| `Processes.CoreAfter` | kernel/src/interrupts/idt.rs:278-343 | what any step makes of any core: scheduled, preempted and unfinished events join its queue at the back, a picked one leaves its place, and nothing happens to other cores |
| `ProcessHandlers.Kernel.CreateProcess` | kernel/src/processes/process.rs:106-150 | a fresh nonzero pid, in state New |
| `ProcessHandlers.Kernel.ScheduleProcess` | kernel/src/events/mod.rs:82-93 | queues one event for the process on that core |
| `ProcessHandlers.Kernel.RunProcess` | kernel/src/processes/process.rs:238-280 | the lookup succeeds, the process is marked Running, and its saved registers are loaded |
| `ProcessHandlers.Kernel.TimerHandler` | kernel/src/interrupts/idt.rs:278-343 | nothing for a kernel event or a process that is not Running; otherwise registers saved, state Blocked, a new event on the same core, and the core leaves |
| `ProcessHandlers.Kernel.SysExit` | kernel/src/syscalls/syscall_handlers.rs:9-34 | the process is out of the table and has no live event |
| `PageTables.BelowReach` | kernel/src/processes/process.rs:202-228 | the recursive walk gives back exactly the frames reachable from the table through used entries |
| `PageTables.AddressSpaces.FreePageTable` | kernel/src/processes/process.rs:202-228 | for a tree, while emptying tables in place: every frame below the table, then the table, each once and in order; exactly the tables given back are emptied |
| `PageTables.AddressSpaces.ClearProcessFrames` | kernel/src/processes/process.rs:176-194 | gives back everything under PML4 entries 0 to 255 and then the PML4, each once, and writes nothing but the tables among them |
| `PageTables.UserFramesReached` | kernel/src/processes/process.rs:176-194 | that is the PML4 and what its user half reaches, and no frame that only the kernel half reaches |
| `Teardown.TeardownReturns` | kernel/src/syscalls/syscall_handlers.rs:31-33 | if all those frames are out, every deallocation is a legal one and the bitmap allocator stays sound |
| `Teardown.TeardownClears` | kernel/src/processes/process.rs:176-194 | afterwards exactly the frames of the address space have become free |
| `ProcessMemory.LinkBelow` | kernel/src/memory/paging.rs:63-88 | writing a new frame into an unused entry anywhere in a tree of tables adds that frame to the tree and nothing else |
| `ProcessMemory.StepSound` | kernel/src/processes/process.rs:106-228 | taking a frame, making it a PML4, linking it into any table of a process, and an exit each keep all address spaces disjoint trees of frames that are out |
| `ProcessMemory.RunSound` | kernel/src/processes/process.rs:106-228 | so does every run over any number of processes, and the frames that belong to no process never change |
| `ProcessMemory.NewSpaceEntries` | kernel/src/processes/process.rs:155-171 | a new PML4 has the kernel's entries from 256 on and nothing below |
| `ProcessMemory.StepKernelHalf` | kernel/src/processes/process.rs:155-228 | no step on this or another process changes entries 256 to 511 of the PML4 of a process that does not exit |
| `ProcessMemory.KernelHalfKept` | kernel/src/processes/process.rs:155-228 | so over every run the kernel half of an address space is the one it was created with |
| `ProcessMemory.ExitReturns` | kernel/src/syscalls/syscall_handlers.rs:31-33 | an exit at any moment of any run gives back exactly the frames of its process, each legally, and every other process keeps its address space |
| `ProcessMemory.AllReturned` | kernel/src/processes/process.rs:176-228 | when every process of a run has exited, exactly the frames are out that were out before: nothing leaks |
| `Bitmap.BitWith` | kernel/src/memory/bitmap_frame_allocator.rs:128-137 | or-ing a mask into a word sets that bit and keeps the other 63 |
| `Bitmap.Masks` | kernel/src/memory/bitmap_frame_allocator.rs:128-137 | the masks are the powers of two from bit 0 up |
| `Bitmap.BitWithout` | kernel/src/memory/bitmap_frame_allocator.rs:170-179 | and-ing its complement clears it and keeps the others |
| `Bitmap.WordIsZero` | kernel/src/memory/bitmap_frame_allocator.rs:152-157 | a word is zero exactly when it stands for 64 frames and all of them are free |
| `Frames.SearchEnds` | kernel/src/memory/bitmap_frame_allocator.rs:229-239 | the wrapping search meets a clear bit, within one round, exactly when there is one, and otherwise never ends |
| `Frames.NextClearIsFirst` | kernel/src/memory/bitmap_frame_allocator.rs:229-239 | the bit it finds is the circularly first clear one from its starting place |
| `Frames.AllocFresh` | kernel/src/memory/bitmap_frame_allocator.rs:225-240 | a frame handed out was usable, clear and not out, and no other bit changes |
| `Frames.RunInv` | kernel/src/memory/bitmap_frame_allocator.rs:225-254 | over every run of allocations and frees of held frames, the clear bits are the usable frames that are not out, and the counter is their number plus the number of usable frames |
| `Frames.HeldNotHandedOut` | kernel/src/memory/bitmap_frame_allocator.rs:225-254 | over every run a frame that is out, initial frames included, is not handed out before it is freed, and an unusable one never is |
| `Frames.NoneExactly` | kernel/src/memory/bitmap_frame_allocator.rs:226-228 | allocate_frame gives up exactly when as many frames are clear as are not usable |
| `Frames.NoneMeansExhausted` | kernel/src/memory/bitmap_frame_allocator.rs:226-228 | that is exhaustion exactly when memory has no holes; with a hole the exhausted search never ends, and None comes while frames are free |
| `Frames.FreeSoundExactly` | kernel/src/memory/bitmap_frame_allocator.rs:145-160 | releasing a usable frame keeps the counter law exactly when the frame is out |
| `MemoryMap.TwiceCounted` | kernel/src/memory/bitmap_frame_allocator.rs:72-77 | for aligned disjoint regions init counts every usable frame exactly twice |
| `MemoryMap.UsableIs` | kernel/src/memory/bitmap_frame_allocator.rs:90-96 | for any map: free_region clears exactly the frames whose end lies in a usable entry |
| `MemoryMap.InitSound` | kernel/src/memory/bitmap_frame_allocator.rs:42-82 | from such a map and distinct usable initial frames the allocator starts in the invariant |
| `MemoryMap.ListsUsableOnce` | kernel/src/memory/boot_frame_allocator.rs:84-97 | usable_frames lists every usable frame exactly once; below the heap's address its filter drops none |
| `MemoryMap.ListIs` | kernel/src/memory/boot_frame_allocator.rs:84-97 | for any map: a frame is listed exactly when a usable entry steps to it, 4096 bytes at a time from its base and before its end, at an address that is not both in the kernel image and in the heap's range |
| `MemoryMap.ListInOrder` | kernel/src/memory/boot_frame_allocator.rs:84-97 | the list is in map order: that of two maps one after the other is their lists one after the other |
| `MemoryMap.HoleGivesUp` | kernel/src/memory/bitmap_frame_allocator.rs:226-228 | on a map with one hole the second allocation returns None although a frame is clear |
| `MemoryMap.HoleNeverEnds` | kernel/src/memory/bitmap_frame_allocator.rs:229-239 | on a map whose only usable frame is the third, the second allocation passes the check with no frame clear |
| `FrameAllocators.BootFrameAllocator.AllocateFrame` | kernel/src/memory/boot_frame_allocator.rs:122-134 | hands out the next frame of the list in map order, or None at its end, and panics exactly when a frame is left and the maximum was handed out |
| `FrameAllocators.BitmapFrameAllocator.constructor` | kernel/src/memory/bitmap_frame_allocator.rs:42-82 | the loops over the map and the initial frames build exactly the state in which usable frames are clear but the initial ones |
| `FrameAllocators.BitmapFrameAllocator.FreeRegion` | kernel/src/memory/bitmap_frame_allocator.rs:89-95 | clears exactly the whole frames of the region |
| `FrameAllocators.BitmapFrameAllocator.SetBit` | kernel/src/memory/bitmap_frame_allocator.rs:128-137 | that frame becomes used, no other flag changes, and the counter drops by one |
| `FrameAllocators.BitmapFrameAllocator.ClearBitInit` | kernel/src/memory/bitmap_frame_allocator.rs:170-179 | that frame becomes free, no other flag changes, and the counter grows by one |
| `FrameAllocators.BitmapFrameAllocator.IsBitSet` | kernel/src/memory/bitmap_frame_allocator.rs:188-196 | whether that frame is used |
| `FrameAllocators.BitmapFrameAllocator.OpenEntries` | kernel/src/memory/bitmap_frame_allocator.rs:72-77 | the loop over the map clears exactly the usable frames and adds up both counts |
| `FrameAllocators.BitmapFrameAllocator.MarkUsed` | kernel/src/memory/bitmap_frame_allocator.rs:78-80 | the loop over the initial frames marks exactly those used |
| `FrameAllocators.BitmapFrameAllocator.ClearBit` | kernel/src/memory/bitmap_frame_allocator.rs:145-160 | panics exactly when all frames of the word are free; otherwise that frame becomes free |
| `FrameAllocators.BitmapFrameAllocator.Search` | kernel/src/memory/bitmap_frame_allocator.rs:229-239 | with a clear bit there the loop ends at the circularly first one |
| `FrameAllocators.BitmapFrameAllocator.AllocateFrame` | kernel/src/memory/bitmap_frame_allocator.rs:225-240 | gives up on the counter, or takes that frame and moves past it, wrapping |
| `FrameAllocators.BitmapFrameAllocator.DeallocateFrame` | kernel/src/memory/bitmap_frame_allocator.rs:251-254 | frees the frame, or panics as clear_bit does |
| `FrameAllocators.ReportsHandedOut` | kernel/src/memory/boot_frame_allocator.rs:103-114 | allocated_frames is what was handed out exactly when those frames lie in a row |
| `FrameAllocators.SwitchAllocator` | kernel/src/memory/heap.rs:48-64 | the bitmap allocator starts from the map and the reported frames |
| `FrameAllocators.HandoffHolds` | kernel/src/memory/heap.rs:48-64 | if the first n usable frames lie in a row, the new allocator holds exactly the n frames the boot allocator handed out, without repeats |
| `FrameAllocators.HandoffSafe` | kernel/src/memory/heap.rs:48-64 | so in every later run none of them is returned before it is deallocated |
| `FrameAllocators.HandoffExactly` | kernel/src/memory/boot_frame_allocator.rs:103-114 | in general a frame handed out starts free in the bitmap exactly when it is not among the n frames after the first |
| `FrameAllocators.HandoffLoses` | kernel/src/memory/boot_frame_allocator.rs:103-114 | on a map with a hole, the second boot frame is handed out again by the first allocation of the bitmap |
| `FrameAllocators.DoubleFreeUnseen` | kernel/src/memory/bitmap_frame_allocator.rs:145-160 | from init with frame 0 out, freeing frame 1, which is free, goes unnoticed and breaks the counter |
| `Tlb.StepInv` | kernel/src/memory/tlb.rs:16-34 | with any number of shootdowns under way at once, a step keeps every stale translation covered, by a mailbox that will be read or by a shootdown still to come, exactly when it is not a post over an address still to be invalidated or of page 0 to a core that needs it |
| `Tlb.RunInv` | kernel/src/memory/tlb.rs:16-34 | so does every run of such steps |
| `Tlb.TranslationAfter` | kernel/src/memory/tlb.rs:16-34 | what any step makes of any translation: it comes only from the page table, and goes only by eviction, by the core's own invalidation of that page, or by its handler finding that page in the mailbox |
| `Tlb.TableAfter` | kernel/src/memory/tlb.rs:16-34 | the page table changes only where a shootdown starts and only for its page |
| `Tlb.MailAfter` | kernel/src/interrupts/idt.rs:348-361 | a mailbox is filled only by another core's post, with an interrupt, and emptied only by its own handler |
| `Tlb.Coherent` | kernel/src/memory/tlb.rs:16-34 | on any number of cores, with any number of shootdowns at once, after any run of such steps, when nothing is pending every cached translation agrees with the page table |
| `Tlb.GentleSafe` | kernel/src/memory/tlb.rs:23-28 | a post of a page other than 0 to a mailbox that is clear or holds that page is such a step, whoever else is at it |
| `Tlb.CarefulCoherent` | kernel/src/memory/tlb.rs:16-34 | shootdowns that start one by one, with all mailboxes clear and not for page 0, keep the TLBs coherent |
| `Tlb.ShootdownLeads` | kernel/src/memory/tlb.rs:20-33 | lock, posts, unlock and local invalidation of one core add up to the page in every other core's mailbox with an interrupt pending, and the own translation gone |
| `Tlb.OverwriteLoses` | kernel/src/memory/tlb.rs:23-28 | from a cold start there is a run of two shootdowns after which nothing is pending and a translation is stale |
| `Tlb.OverlapLoses` | kernel/src/memory/tlb.rs:16-34 | from a cold start there is a run of two shootdowns at once, each begun with all mailboxes clear, after which nothing is pending and a translation is stale |
| `Tlb.PageZero` | kernel/src/interrupts/idt.rs:348-361 | the handler leaves the page it was sent stale exactly when that is page 0 |
| `Tlb.PageZeroLoses` | kernel/src/interrupts/idt.rs:348-361 | from a cold start one shootdown of page 0 ends with nothing pending and a stale translation |
| `Tlb.StuckExactly` | kernel/src/interrupts/idt.rs:348-361 | a core spins on its own lock after a step exactly when it did before or the step is its interrupt while it holds the lock |
| `Tlb.StuckForGood` | kernel/src/interrupts/idt.rs:348-361 | then in every run it goes on spinning, and no mailbox is read or written again |
| `Tlb.SelfInterrupt` | kernel/src/interrupts/idt.rs:348-361 | from a cold start there is a run that gets there |
| `Tlb.Cores.TlbShootdown` | kernel/src/memory/tlb.rs:16-34 | the loop tells every other core of the page and then invalidates the own translation: the whole shootdown |
| `Tlb.Cores.TlbShootdownHandler` | kernel/src/interrupts/idt.rs:348-361 | invalidates the page in the mailbox unless that is 0, and clears the mailbox |
| `Loader.AddressSpace.LoadPage` | kernel/src/processes/loader.rs:61-112 | panics exactly when the page is mapped already or its file bytes are missing; otherwise the new page holds file bytes and then zeros, whatever the frame held |
| `Loader.AddressSpace.LoadSegment` | kernel/src/processes/loader.rs:46-113 | panics exactly when the segment is empty, a file byte that goes to one of its pages is missing, or a page with a byte of [p_vaddr, p_vaddr + p_memsz) is mapped; otherwise those pages, and no others, are new and hold its image |
| `Loader.AddressSpace.LoadElf` | kernel/src/processes/loader.rs:40-114 | succeeds exactly when every load header fits behind the ones before it; then a page is mapped exactly when some load header has a byte in it, and holds the file's bytes as far as they go, zeros after, and the header's permissions |
| `Loader.SpanIs` | kernel/src/processes/loader.rs:56-57 | the pages from start_page to end_page are exactly those with a byte of the segment |
| `Loader.LoadableAll` | kernel/src/processes/loader.rs:46-113 | no panic is possible exactly when every load header fits behind the ones before it |
| `Loader.AlignedSegment` | kernel/src/processes/loader.rs:46-113 | for a page-aligned segment byte k is file byte p_offset + k for k < p_filesz, and 0 from there through the end of the last page |
| `Loader.AlignedInPlace` | kernel/src/processes/loader.rs:46-113 | so its file bytes stand at p_vaddr and on |
| `Loader.ImageFromPageStart` | kernel/src/processes/loader.rs:66-70 | in general the image starts at the start of the segment's first page |
| `Loader.UnalignedShifted` | kernel/src/processes/loader.rs:66-70 | for every unaligned segment there is a file whose bytes do not stand where the header asks |

## Left out

- Fat16Driver.Fat16.RemoveDir: for a directory that passes the test and still has entries it states what is written to disk; that this means the tree without the whole subtree is Pruning.RemoveDirExactly. The panic is that of overflow checks; without them the subtraction wraps, which is not modelled.
- Fat16Driver.Fat16.RemoveEntry: the same; its callers do not reach it with an entry that names cluster 0.
- Fat16Driver.Fat16.RenameEntry: states what is written to disk in every case; that the volume stays sound when the destination's parent is a file is Pruning.RenameIntoFile, and that a dot entry as source destroys it is Meaning.RenameExactly. What a rename to a name that does not read as live leaves behind is stated in sectors only.
- Fat16Driver.Fat16.CreateFile: for a name stored as never used in front of used slots it states what is written to disk; that no sound volume is left is Meaning.StoreExactly.
- Fat16Driver.Fat16.CreateDir: the same as for CreateFile.
- Namespace.ResolveOwner: a path with "." or ".." components is followed only as long as no dot entry dangles, which is until a directory is removed that the ".." of another one still names (Tree.StepLeadsOn); from there on the code reads a free or reused cluster as a directory.
- Namespace.AbsentInParent: the same as for Namespace.ResolveOwner.
- Fat16Driver.Fat16.FindEntry: the same as for Namespace.ResolveOwner.
- Fat16Driver.Fat16.FindParent: the same as for Namespace.ResolveOwner.
- Fat16Driver.Fat16.RemoveFile: the same as for Namespace.ResolveOwner.
- OpenFile.OpenFileAt: the same as for Namespace.ResolveOwner.
- OpenFile.Fat16File.Write: one open descriptor per file; the descriptor table, close_file and removing an open file are not modelled.
- Format.FormatDevice: a driver is returned for devices below 65536 blocks; what format writes on larger ones is FormatSectors, and that they cannot be used is PlannedWellFormed. Blocks of another size are left out; the bytes of the boot sector that mounting does not read are a parameter.
- Device errors part-way through an operation; read_dir, metadata and timestamps, which would add easy members only.
- read_with_device and write_with_device repeat read_file and write_file; the loop is modelled once.
- EventLoop.EventRunner.Schedule: one step, with the enqueue and the insertion together; the two halves are separate only in PicksNew, SplitSchedule, DroppedIsLost and LostForGood.
- ProcessHandlers.Kernel.CreateProcess: building the address space is not part of it; that is ProcessMemory for the frames and Loader for their contents.
- ProcessHandlers.Kernel.ScheduleProcess: the first scheduling of a process; the timer's own call is part of TimerHandler.
- ProcessHandlers.Kernel.SysExit: giving the address space back is ProcessMemory.ExitReturns, over the same pids.
- FrameAllocators.BitmapFrameAllocator.Search: has the precondition that some bit is clear; without one the loop never ends (Frames.SearchEnds).
- Event identifiers and clocks are unbounded numbers; wrap-around of the 64-bit counters is not modelled.
- ProcessHandlers.Kernel.TimerHandler: registers are one opaque value; the assembly that saves and restores them, and the switch of page tables, are not modelled.
- Processes: events of one core are picked in any order, which covers the order of the event runner; pids do not wrap around.
- FrameAllocators.BitmapFrameAllocator.AllocateFrame: has the precondition that the call returns; Frames.SearchEnds and Frames.NoneMeansExhausted say when that is.
- FrameAllocators.HandoffHolds: the map is page aligned and without overlaps, physical memory ends below the heap's virtual address, and fewer frames were handed out than memory has; if every frame was handed out, to_allocate starts past the end.
- ProcessMemory: mappings are added and go with the process; changing or removing single mappings of a process, and what is stored in its pages, are left out.
- PageTables: huge pages are not modelled, as free_page_table does not know them either; flags of entries are left out.
- Tlb: one page table; a pending interrupt is one bit per core, interrupts are delivered in any order, and the handler holds the lock for its whole length.
- Loader: parsing of the ELF header, the temporary kernel mapping of each page and the user stack.
- Drivers for SD cards, PCI, serial and interrupt controllers, the GDT and IDT, boot of other cores, the framebuffer and logging.
