# NullOS kernel: a verified model

NullOS is a small 32-bit x86 kernel. This project models the parts of it where data could be lost or mixed up and
proves what they promise, for all inputs and over all runs:

- **FAT16 driver** (`kernel/fs/fat16.c`, the FAT16 side of `kernel/fs/vfs.c` and `sys_write`). The disk is an array of
  sectors, the cached FAT an array of entries. A ghost layout says which cluster belongs to which object and a ghost
  tree says which directory holds which entry; both are tied to the bytes on disk. Every sector write is also put on
  a ghost trail of disk images, so that "after every prefix of the writes" is a statement about that trail.
  Files `Fat16*.dfy` and `Vfs.dfy`.
- **Processes, pipes, fd tables, the disk gate and the scheduler** (`kernel/pipe.c`, `kernel/process.c`,
  `kernel/scheduler.c`, `kernel/drivers/ata.c` and the system calls over them). `Protocol*.dfy` is a state machine whose
  steps are the interrupts-off sections of the kernel, in any interleaving; `Kernel.dfy` is the tables themselves,
  changed in place, each method doing exactly one step of the machine.
- **Physical pages and address spaces** (`kernel/memory/pmm.c`, `kernel/memory/vmm.c`, `process_fork`, user copies).
  Memory is 2048 frames of 4096 bytes; page directories and tables are words in those frames, and a ghost owner per frame
  says what it is for. Files `Pmm.dfy`, `Paging*.dfy`, `PageWalk.dfy`, `Vmm.dfy`, `Fork*.dfy`, `UserCopy.dfy`.
  `Processes.dfy` puts the process tables and the address spaces together for `sys_fork`.
- **Kernel heap** (`kernel/memory/heap.c`): linked headers changed in place, against a list of blocks. Files `Heap*.dfy`.
- **ELF loader** (`kernel/elf.c`), on the address spaces above. Files `Elf*.dfy`.
- **Boot configuration and crash record** (`kernel/bootcfg.c`, `kernel/crashdump.c` and their users): text edited in
  place in a 512-byte buffer, and a state machine over reboots. Files `Config*.dfy`, `Crash*.dfy`, `BootConfig.dfy`.

`dafny verify dfyconfig.toml` checks everything.

## How the parts fit

Where the kernel changes things in place, a class or an array method does the same steps and its postcondition ties the new
state to a function of the old one. What the kernel promises is then proved about those functions, mostly as invariants
kept by every step. The main results:

- *File writes.* `Fat16Driver.Driver.WriteAt` stores a prefix of the data that is as long as the free clusters allow,
  leaves every other entry and file alone, and every image on the trail is `CrashSafe`: each other object still has its
  chain on disk and reads as before; and the file itself has, under its old or its new directory entry, an on-disk chain
  of distinct clusters that covers its size and reads as the old contents with a prefix of the data in place. A whole
  `sys_write` of many chunks has the same property at every cut (`Vfs.WriteStream`).
- *Directories.* A call leaves a valid volume if and only if it does not break it: `Breaks` is a condition on the volume
  before the call, and after a call that meets it no chains and no tree make the volume valid (`Fat16Runs.Do`). Every run of
  creates, mkdirs, writes, whole-file replacements and directory changes goes through valid trees up to the first such call
  and stops behind it (`Run`, `DirectoryFacts`). From a formatted volume, if directories get space-free names, the path
  reported for any directory leads back to it in each of those states (`RunFormatted`).
- *Reads and paths.* What a read of a file returns is stated of the file's contents alone, and a write followed by a read gives
  the spliced contents back (`WriteThenRead`). What a path means is given by laws: one component, a component and the rest,
  a relative path behind the path of a directory (`OneComponent`, `NextDirectory`, `PathsCompose`).
- *Power cuts.* For a made file, a made directory and a replaced file it is stated of each image on the trail whether it
  shows the old volume, the new one or neither (`Fat16Torn`).
- *Blocking.* In every state of every run a process is blocked exactly when it is registered with a waker whose condition
  still fails (`BlockedHasWaker`); a step that ends the reason to wait makes it ready and takes it off every list
  (`NoWakeupLost`).
- *Processes.* What each step does to processes, entries, pipes and calls, and that it does nothing else, is in
  `ProtocolEffects`; the live processes of every run have distinct pids (`LivePidsDiffer`), and once one has ended no later
  state has its pid, so a wait for it returns (`EndedIsGone`, `WaitAfterExit`).
- *Address spaces.* No frame is a user page twice, the first 8 MB stay mapped to themselves and closed to user code, and
  fork copies every page into fresh frames exactly when there are frames for the directory, the pages and their tables.
  `sys_fork` as a whole makes a child exactly when there is also a process slot, with the fd entries counted
  (`Processes.ForkCurrent`).
- *Heap, loader, configuration, crash record*: see the table.

## Results that differ from what one might expect

- `fat16_read_at` clamps the length with a 32-bit sum. The clamp is right exactly when `pos + len` does not wrap
  (`ClampIsExact`).
- `fat16_write_file` frees the old chain before it looks for new clusters. When the new contents do not fit, the cached FAT
  ends up with one chain of all the file's and all free clusters, which holds the start of the new contents, and the entry
  still describes the old file. That FAT is the one on disk, and the volume valid, exactly when no cluster was free and the
  old chain was empty, or ascending and ended by 0xFFFF (`RebuiltExactly`, `AbandonedExactly`). `Fat16Full.Overfull` is a
  volume that is not.
- `fat16_mkdir` and `fat16_write_file` write the entry before the FAT. A cut behind the entry of a new directory always
  leaves an image that shows neither the old volume nor the new one, unless the parent had to grow and both new clusters
  are in FAT sectors no later than that of its last cluster (`MkdirSafe`, and `InsertSafe` for `fat16_create`). After a
  replaced file's entry is written an image shows the new volume exactly when each link of the new chain is written or was
  in the old FAT (`ReplaceTorn`, `ReplaceSafe`); other files are never hurt.
- A short `sys_write` to a file may have stored more than it reports: only whole 128-byte chunks are counted (`WriteStream`).
- "." and ".." are found in every subdirectory but not in the root, so making "/." adds an entry called "." there
  (`RootDotIsAdded`), and then nothing is a valid tree of that volume any more (`NoTreeWithDot`). An entry made for a name
  whose first byte is 0xE5 is in its slot but no lookup finds it (`MadeIsFound`).
- `user_ptr_valid` refuses a range that ends exactly at the top of the 32-bit space, since the sum wraps to zero.
- A failed `heap_expand` leaves the end of the heap advanced by the pages it did get; they belong to no block.
- A fork that fails for lack of memory does not free the page tables it built for the child. The frames lost are those for
  the pages that did fit, and none exactly when at most two frames were free (`ForkAddressSpace`, `NothingBuilt`);
  `ForkLoses.LosesTable` loses one.
- The copy loop of `elf_load` adds the offset in the page twice. The bytes of a segment land where they belong exactly when
  it starts on a page boundary or has none (`CopyLandsRight`); half a page for address 0x00800800 ends up in the next frame
  (`WrongFrame`, `WrongFrameFilled`). So the loader is proved for files whose segments with bytes start on a page boundary.
- `bootcfg_buf_set` on a sector whose last line has no newline appends to that line. It still does what it promises exactly
  unless that line belongs to another key (`SetTextLaw`); `SetRunsOn` is a sector where it does not. With a key on two lines
  set and remove bring the second one to light (`RepeatedKey`).

## Model

| member | source | states |
|---|---|---|
| `Fat16Name.To83` | kernel/fs/fat16.c:83-126 | the in-place encoder produces the 8.3 form of every component, whose bytes are those of `EncodedByte` |
| `Fat16Name.EncodedByte` | kernel/fs/fat16.c:78-126 | each of the 11 bytes by its value: the component's byte up to the first period in the base and behind it in the extension, 32 less for 0x61 to 0x7A, and a space where there is none |
| `Fat16Name.CaseBlind` | kernel/fs/fat16.c:78-126 | components that differ only in the case of letters encode alike, and no small letter is left |
| `Fat16Name.NameRoundTrip` | kernel/fs/fat16.c:83-126 | displaying a directory name and encoding the text again gives the name back for exactly the canonical names, "." and ".." |
| `Fat16Name.Name83Canonical` | kernel/fs/fat16.c:83-126 | every space-free component other than the dots encodes to a canonical name |
| `Fat16GetPath.DisplayName` | kernel/fs/fat16.c:508-520 | the copied-out text is the display form that `NameRoundTrip` speaks of |
| `Fat16Name.DisplayedText` | kernel/fs/fat16.c:508-520 | the text is the base up to its first space and, unless the extension is blank, a period and the extension up to its first space |
| `Fat16Image.ReadDiskIsContent` | kernel/fs/fat16.c:185-192 | following a chain in the FAT on disk, which stops where the driver stops, covers the size and reads the same bytes as the layout says the file has |
| `Fat16Layout.ViewWrite` | kernel/fs/fat16.c:190-192 | writing one sector of one object changes that sector of that object and no other object |
| `Fat16Layout.GrowOk` | kernel/fs/fat16.c:217-225 | linking a free cluster behind a chain keeps all chains disjoint, in range and ended |
| `Fat16Format.FatBytes` | kernel/fs/fat16.c:197-206 | an entry of the cached FAT is on disk as two bytes, low byte first, at the same place of every copy |
| `Fat16Format.DataBytes` | kernel/fs/fat16.c:190-192 | which byte of which sector a byte of a file or subdirectory is, from the number of its cluster |
| `Fat16Format.RootBytes` | kernel/fs/fat16.c:256-264 | the same for the root directory |
| `Fat16Format.EntryBytes` | kernel/fs/fat16.c:27-36 | every byte of an entry that was made: name, attributes, zeros, first cluster and size with low bytes first |
| `Fat16Format.ResizedBytes` | kernel/fs/fat16.c:948-962 | updating an entry changes the bytes of its first cluster and size and no other |
| `Fat16Format.EntryKinds` | kernel/fs/fat16.c:27-42 | the attribute bytes of new files and directories, and by which bits and first bytes entries are told apart |
| `Fat16Driver.Driver.constructor` | kernel/fs/fat16.c:162-176 | a mount caches exactly the FAT that copy 0 holds |
| `Fat16Driver.Driver.AllocCluster` | kernel/fs/fat16.c:217-225 | takes the lowest free cluster and marks it end of chain, or finds that none is free and changes nothing |
| `Fat16Driver.Driver.FlushFat` | kernel/fs/fat16.c:197-206 | every FAT copy equals the cached FAT afterwards; every image on the way has each FAT sector old or new and the rest untouched |
| `Fat16Driver.Driver.NextSector` | kernel/fs/fat16.c:244-278 | the iterator delivers the sectors of root and subdirectories in order and ends on the last cluster |
| `Fat16Driver.Driver.DirLookup` | kernel/fs/fat16.c:289-323 | finds the first live entry of that name before the first empty slot, with its sector and index, exactly when there is one |
| `Fat16Dir.FindIndexed` | kernel/fs/fat16.c:289-323 | in a valid directory lookup finds every live entry by its name |
| `Fat16Driver.Driver.Seek` | kernel/fs/fat16.c:871-906 | reaches the cluster of byte pos, allocating at most one; fails only when that needs a cluster and none is free |
| `Fat16Driver.Driver.StoreData` | kernel/fs/fat16.c:908-946 | stores the data across sectors and clusters, stops short only on a full disk with the last cluster full, and every image on the way is safe |
| `Fat16Driver.Driver.Perform` | kernel/fs/fat16.c:865-967 | the bytes stored are the minimum of the request and the room; otherwise nothing changes |
| `Fat16Driver.Driver.WriteAt` | kernel/fs/fat16.c:846-967 | exact result for every call; the file reads as the old bytes with the stored prefix spliced in, all else is unchanged, the volume stays valid, and after every sector write every object has its chain on disk and the file a chain that covers its size |
| `Fat16Write.StoreStep` | kernel/fs/fat16.c:911-930 | one data sector more: the file extends by exactly those bytes and the image is safe under the old entry |
| `Fat16Write.FlushIsSafe` | kernel/fs/fat16.c:836-838 | every image in the middle of a FAT flush is safe: the file still has its old entry and an on-disk chain that covers it |
| `Fat16Write.FinalImageIsSafe` | kernel/fs/fat16.c:948-962 | the image after the entry is written reads, from disk alone, as the new file |
| `Fat16Write.PartwayIsSafe` | kernel/fs/fat16.c:836-838 | whatever such an image shows of the file itself, every other object has its chain on disk, and directories, other entries and other files read as before |
| `Fat16Write.CommitWritten` | kernel/fs/fat16.c:948-962 | the committed volume is a valid tree whose file has the new size, first cluster and bytes, with clusters conserved |
| `Fat16Write.ReadBack` | kernel/fs/fat16.c:846-967 | any range read back after the write is that range of the spliced contents |
| `Fat16Write.RoomIs` | kernel/fs/fat16.c:865-946 | w bytes find room exactly when the clusters for pos + w bytes are at most those of the file and the free ones |
| `Fat16Driver.Driver.ReadAt` | kernel/fs/fat16.c:969-1025 | returns as many bytes as the clamped length asks for and the chain still has from pos on, also when the chain is shorter than the size; the buffer starts with exactly those bytes and is otherwise untouched, and so is the disk |
| `Fat16Driver.Driver.ClampIsExact` | kernel/fs/fat16.c:969-973 | the clamp equals the mathematical minimum exactly when the 32-bit sum does not wrap, and when it wraps nothing is clamped |
| `Fat16Read.FileIsCovered` | kernel/fs/fat16.c:846-967 | in a valid tree the chain of a file holds all of its bytes |
| `Fat16Read.ReadWhole` | kernel/fs/fat16.c:969-1025 | so reading a file of the volume gives min(len, size - pos) bytes, nothing at or behind the end, and they are the bytes of the file from pos on |
| `Fat16Read.FindFile` | kernel/fs/fat16.c:485-504 | finds the entry exactly when the path names a plain file, together with its directory and slot |
| `Fat16Read.ReadFile` | kernel/fs/vfs.c:25-108 | opening a path and reading at a position: an error exactly when it names no file or nothing is asked for; otherwise what `ReadWhole` says |
| `Fat16Read.WriteThenRead` | kernel/fs/fat16.c:846-1025 | a write and then a read of the file through its entry returns the old contents with the stored data spliced in, all of it when the buffer is large enough |
| `Vfs.VfsWrite` | kernel/fs/vfs.c:110-129 | success exactly when everything fits; the position advances by what was stored |
| `Vfs.Reported` | kernel/syscall.c:202-225 | all bytes, or the whole 128-byte chunks among those stored, or an error when not even one is |
| `Vfs.WriteStream` | kernel/syscall.c:202-225 | a write in chunks leaves what one write of the whole buffer would leave, stops short exactly at the end of room or of 32-bit positions, reports whole chunks, and is safe at every cut |
| `Vfs.WrittenChain` | kernel/syscall.c:202-225 | writing w bytes and then m more is writing w + m bytes |
| `Fat16Path.NextComponent` | kernel/fs/fat16.c:392-398 | splits off the first component, cut to the buffer, and the slashes behind it |
| `Fat16Path.ResolvePath` | kernel/fs/fat16.c:413-460 | finds the parent directory and encoded last component of any path, or fails exactly when a component on the way is no directory; the next rows say what the path means |
| `Fat16GetPath.OneComponent` | kernel/fs/fat16.c:413-460 | a single component names an entry of the current directory |
| `Fat16GetPath.NextDirectory` | kernel/fs/fat16.c:413-460 | a component and a path behind it mean that path in the directory the component names, or nothing when it is none |
| `Fat16GetPath.PathsCompose` | kernel/fs/fat16.c:413-460 | behind the path of a directory a relative path means what it means in that directory, wherever one is; behind a slash what it means in the root |
| `Fat16GetPath.SlashesAreOne` | kernel/fs/fat16.c:392-460 | any number of slashes is like one, and at the end like none |
| `Fat16GetPath.LongComponent` | kernel/fs/fat16.c:392-398 | a component of more than 63 bytes is cut there and its rest taken for the next one |
| `Fat16GetPath.DotsResolve` | kernel/fs/fat16.c:413-481 | in a subdirectory "." and ".." lead to itself and to the one above; in the root neither is found |
| `Fat16Path.ResolveStays` | kernel/fs/fat16.c:413-481 | in a valid tree every path resolves to a directory of the tree |
| `Fat16GetPath.ResolveDirectory` | kernel/fs/fat16.c:462-481 | the directory a path names, or which of the two errors |
| `Fat16GetPath.DirectoryFound` | kernel/fs/fat16.c:462-481 | a component leads to the directory whose entry has that name; a file of the name is an error of its own, and so is no entry at all; the empty path is the root |
| `Fat16GetPath.FindChildName` | kernel/fs/fat16.c:743-765 | the name of the first subdirectory entry that leads to a cluster |
| `Fat16GetPath.BuildPath` | kernel/fs/fat16.c:771-819 | the walk by ".." builds the directory's path, and fails exactly beyond 16 levels or 127 characters |
| `Fat16GetPath.PathOfChild` | kernel/fs/fat16.c:771-819 | the path of a directory is that of the one above, a slash, and the text of the entry that leads to it |
| `Fat16GetPath.GetPath` | kernel/fs/fat16.c:771-819 | exact failure condition; otherwise the path and its NUL and nothing else in the caller's buffer |
| `Fat16GetPath.PathRoundTrip` | kernel/fs/fat16.c:771-819 | the path built for a directory resolves to that directory from anywhere, when its name and those above are canonical and neither blank nor with a slash |
| `Fat16GetPath.ComponentIsPlain` | kernel/fs/fat16.c:83-126 | space-free components other than the dots make names of that kind |
| `Fat16DirOps.FindFree` | kernel/fs/fat16.c:331-361 | the first empty or deleted slot, or the last cluster of a full directory |
| `Fat16DirOps.GrowDirectory` | kernel/fs/fat16.c:363-384 | a full subdirectory grows by a zeroed cluster that starts with the entry, or nothing changes |
| `Fat16DirOps.DirInsert` | kernel/fs/fat16.c:331-384 | the entry is in the first free slot or a new cluster, no other object changed and no other cluster taken; fails exactly when there is neither |
| `Fat16Insert.FileInserted` | kernel/fs/fat16.c:331-384 | inserting a file entry with a new name keeps the volume a tree |
| `Fat16Insert.DirInserted` | kernel/fs/fat16.c:595-664 | inserting a directory with its dot entries keeps the volume a tree |
| `Fat16Free.FreeChain` | kernel/fs/fat16.c:208-214 | frees exactly the clusters of the chain |
| `Fat16Free.DropOk` | kernel/fs/fat16.c:208-214 | all other chains stay in place |
| `Fat16Free.FreedCount` | kernel/fs/fat16.c:208-214 | the free clusters grow by the length of the chain |
| `Fat16Create.Create` | kernel/fs/fat16.c:556-593 | exact outcome for every path by existing entry and space; refused and repeated calls change nothing; otherwise one empty file is added, to a valid tree exactly unless it is a dot in the root |
| `Fat16Create.Mkdir` | kernel/fs/fat16.c:595-664 | the same for a directory with "." and ".."; a failed call gives its cluster back and clusters are conserved |
| `Fat16Create.MakingMeans` | kernel/fs/fat16.c:556-664 | the outcome by the entries there are: an entry of that name decides by its kind; without one something is added exactly when there is a slot, or a subdirectory can grow, and the clusters for it are free |
| `Fat16Create.MadeIsFound` | kernel/fs/fat16.c:556-593 | after an entry was made for a name that was not there, lookup finds it in its slot exactly when the name does not start with the deleted mark |
| `Fat16Create.NoTreeWithDot` | kernel/fs/fat16.c:556-664 | a volume whose root holds a live entry starting with a period is no valid tree, whatever tree is tried |
| `Fat16Create.PlaceName` | kernel/fs/fat16.c:413-460 | whatever a path resolves to, the name there is the encoded last component |
| `Fat16Create.NotFoundIsGood` | kernel/fs/fat16.c:556-664 | a name not found in a directory is good, starts with the deleted mark, or is a dot in the root |
| `Fat16Create.RootDotIsAdded` | kernel/fs/fat16.c:556-593 | "/." gets an entry in every valid volume with a free root slot |
| `Fat16Create.ComponentIsGood` | kernel/fs/fat16.c:83-126 | a component gives a good name exactly when it is no dot component and does not start with 0xE5 |
| `Fat16Runs.DirectoryFacts` | kernel/fs/fat16.c:289-384 | a valid tree has unique names, dot entries to self and parent, strictly decreasing depth, and nothing after the first empty slot |
| `Fat16Runs.FormattedIsValid` | kernel/fs/fat16.c:130-177 | a volume whose root directory is all zeros is a valid tree |
| `Fat16Runs.MountFormatted` | kernel/fs/fat16.c:130-177 | mounting it gives a driver with the invariant, from which every run starts |
| `Fat16Runs.NeverRootDot` | kernel/fs/fat16.c:413-460 | a path that does not end in a dot component never names a dot in the root |
| `Fat16Runs.EveryPathResolves` | kernel/fs/fat16.c:462-819 | where all directory names are plain, the path of every directory resolves to it |
| `Fat16Runs.Do` | kernel/fs/fat16.c:556-967 | for every call what it leaves of the volume; valid afterwards if and only if it does not make a dot in the root and is no replacement that does not fit, unless the old chain was built again; otherwise no chains and tree make it valid; space-free names keep all directory names plain |
| `Fat16Runs.Run` | kernel/fs/fat16.c:556-967 | every run: the sequence of states, each the outcome of its call, all valid up to the first call that breaks the volume, which is done and leaves it ruined; without such a call all of the run is done |
| `Fat16Runs.RunsOn` | kernel/fs/fat16.c:556-967 | calls without a final dot component to make and without a replacement never stop a run |
| `Fat16Runs.RunFormatted` | kernel/fs/fat16.c:130-967 | in every state of a run from a formatted volume that gives directories space-free names, up to the first call that breaks it, the path of every directory resolves to it from anywhere |
| `Fat16Replace.BuildChain` | kernel/fs/fat16.c:698-726 | a chain that holds the buffer padded to clusters, or as much of it as there were free clusters |
| `Fat16Replace.ReplaceChain` | kernel/fs/fat16.c:693-735 | the new contents in place of the old; or on a full disk nothing free, one ascending chain of all old and free clusters that holds the start of the data, and the exact condition for the FAT on disk to agree |
| `Fat16Replace.RebuiltExactly` | kernel/fs/fat16.c:693-726 | giving a chain back and taking every cluster in order gives the same FAT exactly when none was free and the chain was in order |
| `Fat16Full.Overfull` | kernel/fs/fat16.c:668-735 | a run on a small volume: a failed replacement leaves the old entry over new bytes and the cached FAT unlike the one on disk |
| `Fat16Replace.WriteFile` | kernel/fs/fat16.c:668-735 | succeeds exactly when the clusters needed are at most the free ones plus the old chain; then the file reads as the buffer, all else is unchanged and clusters are conserved; otherwise it is left as `ReplaceChain` says, valid exactly when the old chain was built again |
| `Fat16Replace.AbandonedExactly` | kernel/fs/fat16.c:693-706 | a replacement given up leaves a valid volume exactly when no cluster was free and the old chain was in order |
| `Fat16Replace.ReplaceDone` | kernel/fs/fat16.c:728-735 | the final volume is a valid tree with exactly the new contents |
| `Fat16Cuts.CutNewChain` | kernel/fs/fat16.c:197-206 | after n sectors of a flush a chain of the new FAT is on disk exactly when each link is written or was there |
| `Fat16Cuts.CutOldChain` | kernel/fs/fat16.c:197-206 | a chain of the old FAT is still on disk exactly when no link of it is written over |
| `Fat16Torn.InsertTorn` | kernel/fs/fat16.c:331-384 | a cut while an entry is added: which images show the old volume and which the new one, by the FAT sectors of the directory's last and new clusters |
| `Fat16Torn.InsertSafe` | kernel/fs/fat16.c:331-384 | every image shows one of the two exactly when the directory does not grow or the new cluster is in no later FAT sector |
| `Fat16Torn.MkdirTorn` | kernel/fs/fat16.c:595-664 | the same for a new directory, whose own cluster counts too; with a free slot the images between the entry and the FAT sector of the cluster show neither |
| `Fat16Torn.MkdirSafe` | kernel/fs/fat16.c:658-663 | so with a free slot a new directory whose entry lookup sees is never safe, and otherwise exactly when neither new cluster is in a later FAT sector |
| `Fat16Torn.ReplaceTorn` | kernel/fs/fat16.c:693-735 | a cut while a file is replaced: all other chains, objects and entries are there in every image; before the entry is written so are the file's old chain and entry; from then on the new volume is shown exactly when each link is written or old |
| `Fat16Torn.ReplaceSafe` | kernel/fs/fat16.c:731-734 | every image behind the entry shows the new volume exactly when the old FAT had the new chain |
| `Protocol.SetFdHolders` | kernel/fs/vfs.c:137-150 | changing one fd entry moves the number of holders of each pipe end by exactly one |
| `ProtocolRuns.StepKeeps` | kernel/pipe.c:44-181 | every step of every process and of the hardware keeps the invariant |
| `ProtocolRuns.AlwaysDefined` | kernel/syscall.c:426-472 | in the invariant no step meets an index out of its table |
| `ProtocolRuns.InitialInv` | kernel/process.c:70-91 | the booted system has the invariant |
| `ProtocolRuns.RunKeeps` | kernel/pipe.c:44-181 | every state of every run has the invariant |
| `ProtocolRuns.GateHasRoom` | kernel/drivers/ata.c:168-192 | the gate's waiter list never overflows |
| `ProtocolInv.SeedHasRoom` | kernel/syscall.c:561-635 | a process being built always has a free entry for a standard stream, so the "not placed" branches are never taken |
| `ProtocolTheorems.BlockedHasWaker` | kernel/pipe.c:44-129 | in every run a process is blocked exactly when it is being built, waits for the disk, or is registered with a waker whose condition fails |
| `ProtocolTheorems.NoWakeupLost` | kernel/pipe.c:131-181 | after any step a blocked process still waits, or it is ready and registered nowhere |
| `ProtocolTheorems.NeverBothBlocked` | kernel/pipe.c:44-129 | reader and writer of one pipe are never both blocked on it |
| `ProtocolTheorems.OneHolder` | kernel/drivers/ata.c:168-204 | one process is inside the disk gate |
| `ProtocolTheorems.OnlyCurrentRuns` | kernel/process.c:314-326 | at most the current slot is running |
| `ProtocolTheorems.CountsAreEntries` | kernel/syscall.c:144-177 | reference counts equal the fd entries naming each end, a pipe slot is unused exactly when none does, and unused process slots have no entries |
| `ProtocolTheorems.ReadsInOrder` | kernel/pipe.c:44-82 | what is read is exactly what was accepted next; everything read is a prefix of everything accepted |
| `ProtocolTheorems.WriteDelivers` | kernel/pipe.c:84-129 | a write that returns success appended all its data once, in one piece |
| `ProtocolTheorems.EndOfFile` | kernel/pipe.c:44-82 | end of file is seen only after everything was consumed and no write end is left |
| `ProtocolTheorems.ReadBlocksOtherwise` | kernel/pipe.c:44-82 | a reader that gets nothing while a writer is left is blocked |
| `ProtocolTheorems.HistoryKept` | kernel/syscall.c:236-249 | no other call changes what a pipe has accepted or handed out |
| `ProtocolTheorems.EndStays` | kernel/pipe.c:164-181 | once the last write end is closed none comes back while the slot is in use |
| `ProtocolTheorems.EndIsFinal` | kernel/pipe.c:44-181 | over any stretch of a run nothing is accepted after end of file |
| `ProtocolTheorems.DispatchCloser` | kernel/scheduler.c:53-73 | every dispatch picks a given ready slot or brings the scan strictly closer to it |
| `ProtocolTheorems.OnlyDispatchMoves` | kernel/scheduler.c:53-82 | nothing but a dispatch moves the scan |
| `ProtocolTheorems.RoundRobin` | kernel/scheduler.c:53-82 | a slot that stays ready is passed over fewer than 16 times, from any state |
| `ProtocolEffects.ForkMakes` | kernel/syscall.c:144-177 | with memory and an unused slot the child is in the lowest unused slot, ready, under the next pid, with every fd entry of the parent; no other process, entry or call changes; otherwise at most a pid is used up |
| `ProtocolEffects.CopyRowIs` | kernel/syscall.c:168-173 | entry by entry the row copied is the parent's row |
| `ProtocolEffects.ExitEnds` | kernel/process.c:328-359 | the slot is unused and has no pid, exactly those waiting for the pid are ready, nothing else changes |
| `ProtocolEffects.LivePidsDiffer` | kernel/process.c:29-37 | in every state of every run the processes alive have distinct pids |
| `ProtocolEffects.EndedIsGone` | kernel/process.c:328-359 | after a process ended no later state of the run has a process with its pid |
| `ProtocolEffects.WaitAfterExit` | kernel/syscall.c:814-837 | so whoever waits for it returns at its next turn |
| `ProtocolEffects.WaitReturns` | kernel/syscall.c:814-837 | a wait returns exactly when no live process has the pid, otherwise the caller is blocked on it |
| `ProtocolEffects.ReadTakes` | kernel/pipe.c:44-82 | a read takes the minimum of what is asked for and what is there, from the front; from an empty pipe it returns without a writer and blocks with one; nothing else changes |
| `ProtocolEffects.WritePuts` | kernel/pipe.c:84-129 | a write appends the minimum of what is left and the room; it returns when all is in or no reader is left and blocks on a full pipe; nothing else changes |
| `ProtocolEffects.CloseFrees` | kernel/fs/vfs.c:137-144 | that one entry is free and one reference less is on the end it named; only who waited for that end can be woken |
| `ProtocolEffects.MakesPipe` | kernel/syscall.c:426-472 | with a free pipe and two free entries: the lowest pipe, empty, one reference on each end, its ends in the two lowest free entries; otherwise no pipe in use and no entry changes |
| `ProtocolEffects.OpenTakes` | kernel/syscall.c:474-515 | a file takes the lowest free entry |
| `ProtocolEffects.CallsBegin` | kernel/fs/vfs.c:84-117 | a read or write starts with what was asked for, on the pipe the entry names |
| `ProtocolEffects.BootMakes` | kernel/process.c:93-151 | the first process is ready in the lowest unused slot under the next pid |
| `ProtocolEffects.ExecClaims` | kernel/process.c:93-151 | a new process is blocked in the lowest unused slot under the next pid while it is built |
| `ProtocolEffects.SeedCopies` | kernel/syscall.c:602-632 | it gets copies of the entries its maker chose, each in the lowest free entry and counted; nothing else changes |
| `ProtocolEffects.PublishReleases` | kernel/process.c:153-156 | at the end of it the process is ready and its maker free |
| `ProtocolEffects.Turns` | kernel/scheduler.c:53-82 | a dispatch runs one process that was ready, if there is one; a yield leaves it ready |
| `ProtocolEffects.SleepAndWake` | kernel/process.c:361-375 | a sleeper is passed over until the timer makes it ready |
| `ProtocolEffects.GateTurn` | kernel/drivers/ata.c:168-192 | an open gate is entered; at a closed one the caller is put last and blocked |
| `ProtocolEffects.GateOpens` | kernel/drivers/ata.c:194-204 | the gate is open and exactly its waiters are ready to try again |
| `ProtocolEffects.DiskWaits` | kernel/drivers/ata.c:138-154 | with the interrupt there the caller goes on and uses it up, otherwise it blocks as the one to wake |
| `ProtocolEffects.DiskWakes` | kernel/drivers/ata.c:105-154 | in every run a process that waits for the disk is blocked until the interrupt, which makes it ready |
| `Kernel.Tables.constructor` | kernel/process.c:70-91 | the tables of a booted system hold the machine's first state and have the invariant |
| `Kernel.Tables.TakeFromRing` | kernel/pipe.c:51-57 | takes the oldest bytes out of the ring, across the wrap, and keeps the rest in order |
| `Kernel.Tables.PutIntoRing` | kernel/pipe.c:97-106 | appends bytes to the ring in order, across the wrap, in no other pipe's buffer |
| `Kernel.Tables.ReadPass` | kernel/pipe.c:44-82 | one pass of pipe_read is the machine's read step on the real tables; the caller's buffer has the minimum of what it asked for and what was there, the oldest bytes first |
| `Kernel.Tables.WritePass` | kernel/pipe.c:84-129 | one pass of pipe_write is the machine's write step, and says how many bytes are in by then; done with an error exactly when no reader is left |
| `Kernel.Tables.ReleaseReadEnd` | kernel/pipe.c:145-162 | drops a read reference, wakes a writer that can no longer be read from, frees the slot with the last reference |
| `Kernel.Tables.ReleaseWriteEnd` | kernel/pipe.c:164-181 | the same for a write reference and a waiting reader |
| `Kernel.Tables.Close` | kernel/fs/vfs.c:137-144 | releases what the entry held and frees it |
| `Kernel.Tables.CloseOwn` | kernel/syscall.c:517-526 | closes an entry in use, refuses any other, and keeps the invariant |
| `Kernel.Tables.Place` | kernel/fs/vfs.c:146-150 | a copied entry is counted at its pipe |
| `Kernel.Tables.CopyFds` | kernel/syscall.c:144-177 | every entry of the parent, the first included, is copied to its place in the child's row and counted; no other row changes |
| `Kernel.Tables.ResetPipe` | kernel/pipe.c:26-42 | a fresh pipe has an empty ring and one reference on each end |
| `Kernel.Tables.NewPipe` | kernel/syscall.c:426-472 | succeeds exactly with a free pipe, two free entries and a copy to the caller that works; then the two lowest free entries are its ends, otherwise every partial step is undone |
| `Kernel.Tables.ForkProcess` | kernel/syscall.c:144-177 | a child is made exactly with memory and an unused slot: ready, under the pid that is returned, its fd row the parent's and counted; otherwise -1 and no child |
| `Kernel.Tables.ExitProcess` | kernel/process.c:328-359 | the slot is unused and without a pid, whatever state the process was in, and exactly the processes waiting for its pid are ready; an unused slot is left |
| `Processes.Processes.ForkCurrent` | kernel/syscall.c:144-177 | succeeds exactly with a free process slot and frames for the copy; then the child has every page in frames of its own, every fd entry of the parent, and the pid returned; otherwise there is no new process and the frames lost are the tables built; no process sees its memory change |
| `Kernel.Tables.ExitPass` | kernel/syscall.c:236-249 | closes the entries one by one, then the process has ended as `ExitEnds` says |
| `Kernel.Tables.BeginExec` | kernel/process.c:93-151 | claims a slot that cannot be scheduled before it is complete |
| `Kernel.Tables.SeedFd` | kernel/syscall.c:561-635 | the copy always finds entry 0 or 1 free and is counted |
| `Kernel.Tables.MakeReady` | kernel/process.c:153-156 | the built process becomes ready once |
| `Kernel.Tables.WaitPass` | kernel/syscall.c:814-837 | returns exactly when no live process has the pid, otherwise blocks on it |
| `Kernel.Tables.GatePass` | kernel/drivers/ata.c:168-192 | enters an open gate, or registers and blocks |
| `Kernel.Tables.OpenGate` | kernel/drivers/ata.c:194-204 | opens the gate and readies every waiter |
| `Kernel.Tables.IrqHandler` | kernel/drivers/ata.c:105-117 | records the interrupt and wakes the registered waiter |
| `Kernel.Tables.DiskPass` | kernel/drivers/ata.c:138-154 | sleeps only while the interrupt has not fired |
| `Kernel.Tables.RunOnce` | kernel/scheduler.c:53-73 | dispatches the first ready slot after the last one in cyclic order |
| `Kernel.Tables.YieldNow` | kernel/scheduler.c:75-82 | gives the processor back with the process ready again |
| `Pmm.FrameAllocator.MarkPages` | kernel/memory/pmm.c:38-54 | sets or clears exactly the managed pages of the range and keeps the counter |
| `Pmm.FrameAllocator.AllocPage` | kernel/memory/pmm.c:59-73 | the lowest free page, or 0 exactly when none is free |
| `Pmm.FrameAllocator.AllocPageAt` | kernel/memory/pmm.c:75-81 | that page if it is free and aligned, otherwise nothing |
| `Pmm.FrameAllocator.FreePage` | kernel/memory/pmm.c:83-87 | frees a managed page in use and ignores anything else |
| `Pmm.FrameAllocator.Init` | kernel/memory/pmm.c:89-132 | for any list of regions a page is free exactly when it lies in 4-8 MB and wholly inside one usable region |
| `Paging.Identity` | kernel/memory/vmm.c:140-197 | in every directory the first 8 MB map to themselves and are closed to user code |
| `Paging.UserPageOwned` | kernel/memory/vmm.c:93-101 | a user page is a frame above 4 MB that belongs to that directory and address |
| `Paging.UserPagesDisjoint` | kernel/memory/vmm.c:111-138 | no frame is a user page in two directories or at two addresses |
| `PageWalk.WalkIs` | kernel/memory/vmm.c:72-101 | the two-level walk of the processor over the bytes of memory, for user code and for the kernel, gives what the model's translation gives, at every address |
| `PageWalk.SeenIsWritable` | kernel/memory/vmm.c:111-197 | what user code sees it can write; below 8 MB the kernel sees and can write every address as itself and user code sees nothing |
| `Vmm.AddressSpaces.Init` | kernel/memory/vmm.c:164-197 | establishes the identity map and the invariant |
| `Vmm.AddressSpaces.CreateDirectory` | kernel/memory/vmm.c:140-162 | an empty directory with the kernel's two entries in a fresh frame, or no change when no frame is free |
| `Vmm.AddressSpaces.MapUserPage` | kernel/memory/vmm.c:111-138 | exact error codes; success changes that one translation of that one directory and adds at most one table |
| `Vmm.AddressSpaces.ClaimKernelPage` | kernel/memory/vmm.c:27-49 | taking a page for the heap rewrites its table entry with the value it has: the identity map stays as the heap grows |
| `UserCopy.UserPtrValid` | kernel/syscall.c:81-93 | accepts exactly the non-empty, non-wrapping ranges whose every byte is mapped for user code |
| `UserCopy.CopyFromUser` | kernel/syscall.c:99-108 | copies all bytes of the range or none |
| `UserCopy.CopyToUser` | kernel/syscall.c:112-121 | stores all bytes at their addresses in that address space, changes no other byte of any space, or nothing |
| `ForkSpace.ForkAddressSpace` | kernel/process.c:242-281 | succeeds exactly with frames for the directory, the parent's pages and its tables that hold one; then equal contents in frames that were free, all of them the child's, and exactly that many used; otherwise the frames lost are exactly the tables built; everything in use is untouched |
| `ForkSpace.GiveUp` | kernel/process.c:276-281 | what is left after the copy got stuck: as many frames lost as tables built, none exactly with at most two free frames |
| `ForkSpace.TablesBuilt` | kernel/process.c:248-273 | the child has as many tables as the parent has tables with a page among those copied |
| `ForkCost.CostNext` | kernel/process.c:251-273 | a page costs a frame, and another one when it is the first of its table |
| `ForkCost.ReachedIs` | kernel/process.c:248-273 | the page at which the copy stops is the one where the cost first exceeds the free frames |
| `ForkCost.NothingBuilt` | kernel/process.c:242-281 | a copy that fails has built no table exactly when at most two frames were free |
| `ForkLoses.LosesTable` | kernel/process.c:172-281 | from boot on: a process of two pages forks with three frames left, fails, and one frame stays allocated |
| `ForkSpace.FreeSpace` | kernel/process.c:172-183 | gives back every page and the directory of the child, and only those |
| `ForkSpace.OnlyTablesLost` | kernel/process.c:172-183 | the used-page count after a failed fork is higher by exactly the number of page tables built |
| `HeapBlocks.TakeOk` | kernel/memory/heap.c:128-147 | taking a block keeps blocks ordered, apart, inside the heap, with no two free neighbours |
| `HeapBlocks.ReleaseOk` | kernel/memory/heap.c:182-209 | so does freeing one |
| `HeapBlocks.AppendOk` | kernel/memory/heap.c:152-176 | so does new space behind the list, gaps of failed growth included |
| `HeapBlocks.AppendFits` | kernel/memory/heap.c:153-179 | the retry after growth finds a block |
| `HeapBlocks.TakeRelease` | kernel/memory/heap.c:106-209 | kmalloc without growth followed by kfree restores the exact list |
| `HeapBlocks.TakeUsed` | kernel/memory/heap.c:128-147 | allocation adds one used block, of exactly the size asked for when the block is at least 20 bytes larger and else the whole block, and keeps all others |
| `HeapBlocks.ReleaseUsed` | kernel/memory/heap.c:182-209 | freeing removes exactly that block from use |
| `HeapBlocks.TakeBytes` | kernel/memory/heap.c:128-147 | allocation takes the block's bytes off the free ones, and a header's when it splits |
| `HeapBlocks.ReleaseBytes` | kernel/memory/heap.c:182-209 | freeing gives them back, and a header's for each neighbour merged |
| `HeapBlocks.AppendBytes` | kernel/memory/heap.c:156-176 | new space is free but for its header, if it gets one |
| `Heap.SplitBlocks` | kernel/memory/heap.c:132-143 | the pointer edits of a split keep the list doubly linked and do what `Take` says |
| `Heap.JoinBlocks` | kernel/memory/heap.c:194-208 | the pointer edits of a merge keep it doubly linked and do what `Join` says |
| `Heap.AppendBlocks` | kernel/memory/heap.c:156-176 | the same for the append at the tail |
| `Heap.KernelHeap.Expand` | kernel/memory/heap.c:49-71 | grows page by page at equal virtual and physical addresses until a page is missing; memory and mappings are unchanged |
| `Heap.KernelHeap.Init` | kernel/memory/heap.c:83-104 | one free block of 256 KB, or an empty list when the pages are not there |
| `Heap.KernelHeap.TakeFirst` | kernel/memory/heap.c:120-150 | takes the first block that fits in list order |
| `Heap.KernelHeap.AppendSpace` | kernel/memory/heap.c:156-176 | links the new space in or adds it to a free last block |
| `Heap.KernelHeap.Kmalloc` | kernel/memory/heap.c:106-180 | exact outcome for every size and heap, with the invariant kept in every case |
| `Heap.KmallocMeans` | kernel/memory/heap.c:106-209 | a pointer names a 4-aligned block in use that is new and large enough, other used blocks stay, and freeing it gives the list back |
| `Heap.KmallocFails` | kernel/memory/heap.c:106-180 | fails exactly for nothing, for more than 4 MB, or when no free block is large enough and a frame needed behind the heap is taken; otherwise takes the first free block that is large enough, if there is one |
| `Heap.KernelHeap.Kfree` | kernel/memory/heap.c:182-209 | null, already free blocks and blocks swallowed by a merge are ignored; otherwise the block is released and merged |
| `Heap.KernelHeap.CountFree` | kernel/memory/heap.c:211-219 | the sum of the free blocks |
| `ElfLoad.CheckHeaders` | kernel/elf.c:18-63 | accepts exactly the files whose header, table and segments are in bounds, reading only inside the file |
| `ElfFile.AcceptedHeader` | kernel/elf.c:22-44 | by the bytes of any file: which headers pass, and that the program header table must end inside the file |
| `ElfFile.BuiltIsAccepted` | kernel/elf.h:7-34 | a file laid out as the ELF format says is accepted exactly when it has at most 64 segments and each is in bounds, and its entry point and segments are read as they were put in |
| `ElfLoad.Load` | kernel/elf.c:18-120 | a rejected file changes nothing; an accepted one is shown in full in fresh frames with everything else untouched exactly when there are frames for its pages and the tables they need, and takes that many; otherwise at most one frame is left |
| `ElfCost.CostNext` | kernel/elf.c:80-96 | a page costs a frame, and another one when its table is not there yet |
| `ElfCost.CannotPay` | kernel/elf.c:80-96 | the frames needed up to any page are at most those for the whole load |
| `ElfLoad.MapSegment` | kernel/elf.c:80-96 | every page of the segment mapped and zeroed, or memory ran out |
| `ElfLoad.CopySegment` | kernel/elf.c:102-115 | every file byte of a page-aligned segment is in its page, and a segment without any leaves its pages zero |
| `ElfImage.SegmentDone` | kernel/elf.c:66-116 | each page holds the bytes of the last segment that covers it and zeros behind them |
| `ElfImage.ImageByte` | kernel/elf.c:66-116 | every byte of the image: that of the file at its place in the last segment that reaches the page, or zero; pages that none reaches are left |
| `ElfImage.ImageInside` | kernel/elf.c:61-62 | all pages of an image lie in [0x00800000, 0x02000000) |
| `ElfLoad.CopyChunk` | kernel/elf.c:105-114 | one chunk goes to the address the code computes, and from a page start into that page of the image |
| `ElfImage.ByteLands` | kernel/elf.c:102-115 | a byte lands where it belongs exactly when its segment is page-aligned or the byte is behind its first page |
| `ElfImage.CopyLandsRight` | kernel/elf.c:102-115 | all bytes of a segment do exactly when it is page-aligned or has none |
| `ElfImage.WrongFrame` | kernel/elf.c:102-115 | each of 2048 bytes for address 0x00800800 goes to the frame behind its own |
| `ElfImage.WrongFrameFilled` | kernel/elf.c:102-115 | in memory the right frame keeps its contents and the next one gets all the bytes |
| `ConfigStore.FindKey` | kernel/bootcfg.c:46-64 | finds the first line with the key and its bounds, exactly when there is one |
| `ConfigText.LookupIs` | kernel/bootcfg.c:46-64 | a key has a value exactly when a line reads key=value and no line before it starts with the key |
| `ConfigStore.Set` | kernel/bootcfg.c:131-160 | refused exactly for a bad key, a newline or too little room, and then without a trace; otherwise the buffer holds the lines with the key's line gone and the new one behind them, run into a last line without a newline if there is one |
| `ConfigText.SetAddsLine` | kernel/bootcfg.c:131-160 | set keeps the other lines in order and puts key=value behind them |
| `ConfigStore.Get` | kernel/bootcfg.c:97-105 | the value cut to the caller's room, or an error exactly when there is none |
| `ConfigStore.Remove` | kernel/bootcfg.c:162-171 | the buffer holds the lines without the key's line, also when the last line has no newline |
| `ConfigText.SetLaw` | kernel/bootcfg.c:131-160 | set makes get return the value, keeps every other key's value and keeps keys unique |
| `ConfigText.RemoveLaw` | kernel/bootcfg.c:162-171 | remove makes the key absent and keeps every other key's value |
| `ConfigText.RepeatedKey` | kernel/bootcfg.c:131-171 | for any lines: other keys keep their values, and remove makes the key absent, and set makes it have the value, unless a second line shows |
| `ConfigText.SetTextLaw` | kernel/bootcfg.c:131-160 | set makes get return the value exactly unless the last line has no newline and belongs to another key; then the key is absent |
| `ConfigText.SetRunsOn` | kernel/bootcfg.c:131-160 | a sector on which set loses the key and changes another one |
| `ConfigNumbers.FormatU32` | kernel/bootcfg.c:173-186 | the digits built backwards in the small buffer are the number's digits |
| `ConfigNumbers.ParseU32` | kernel/bootcfg.c:108-122 | the number, or the default for a bad digit or more than 32 bits |
| `ConfigNumbers.ParseIs` | kernel/bootcfg.c:108-122 | of any text: the sum of its digits by their places, base 16 behind "0x" or "0X" and else 10, and the default for anything that is no number or needs more than 32 bits |
| `ConfigNumbers.DigitTable` | kernel/bootcfg.c:107-186 | the sixteen digits, written small and read in both cases |
| `ConfigNumbers.FormatParses` | kernel/bootcfg.c:108-186 | every 32-bit number is read back as written, decimal or hexadecimal |
| `ConfigNumbers.FormatForm` | kernel/bootcfg.c:173-186 | decimal numbers are written in decimal digits, the others behind "0x" in hexadecimal ones |
| `ConfigStore.NumberOfIs` | kernel/bootcfg.c:124-129 | the number of a key is read from the first 15 characters of its value; without a value it is the default |
| `ConfigStore.NumberLaw` | kernel/bootcfg.c:124-200 | a number set is the number got; the numbers of other keys stay |
| `CrashRecord.SaveMeans` | kernel/crashdump.c:29-49 | on a sector the kernel wrote the record always fits, reads back field by field and keeps the failure count |
| `CrashRecord.RecordText` | kernel/crashdump.c:29-49 | the six lines a crash adds to a configuration without a record, in order and in text |
| `CrashRecord.ClearMeans` | kernel/crashdump.c:89-98 | an acknowledged record is removed whole, any other state is left |
| `CrashRuns.StepKeeps` | kernel/crashdump.c:29-98 | boots, crashes, resets, exits and first reads keep the configuration sound and memory and disk in agreement |
| `CrashRuns.CountBounded` | kernel/main.c:145-173 | from an empty configuration the failure count never exceeds 3 and a crash record always fits |
| `CrashRuns.BootIs` | kernel/main.c:145-173 | what a boot comes to: a pending record, a request and a count of three each lead to Safe Mode for that reason, in this order, and write nothing; any other boot goes on and is counted on disk |
| `CrashRuns.BootsAddUp` | kernel/main.c:159-168 | over any run without a keyboard read, a normal exit or a crash, the count goes up by one with each counted boot until it is three, and the record stays |
| `CrashRuns.FourthBootIsSafe` | kernel/main.c:159-168 | so after such a run the next boot goes to Safe Mode exactly when the count it started from and its counted boots make three |
| `CrashRuns.Afterwards` | kernel/main.c:145-173 | a sector that could not be written stays as it was, and in what mode each event leaves the machine |
| `CrashRuns.CrashRecorded` | kernel/crashdump.c:29-49 | a saved crash is on disk field by field, replacing an older one, with the count as it was, or zero when the sector could not be read |
| `CrashRuns.PendingBoots` | kernel/main.c:145-173 | a boot with a pending record goes to Safe Mode for that reason and writes nothing |
| `CrashRuns.PendingStays` | kernel/crashdump.c:71-98 | a pending record outlasts every run without an acknowledgement or a newer crash |
| `CrashRuns.EveryBootIsSafe` | kernel/main.c:145-173 | every boot of such a run goes to Safe Mode |
| `CrashRuns.AcknowledgedStays` | kernel/crashdump.c:85-98 | an acknowledged record keeps its fields until the first keyboard read or a newer crash |
| `CrashRuns.NormalExit` | kernel/safemode.c:80-88 | leaving Safe Mode normally acknowledges the record and clears the count |
| `CrashRuns.FirstReadClears` | kernel/syscall.c:319-326 | the first keyboard read drops an acknowledged record and clears the count |
| `BootConfig.Config.CrashSave` | kernel/crashdump.c:29-49 | six in-place sets and one sector write are the machine's crash step: all of the record or nothing |
| `BootConfig.Config.LoadRecord` | kernel/crashdump.c:71-83 | the state and fields of a pending or acknowledged record |
| `BootConfig.Config.AcknowledgeRecord` | kernel/crashdump.c:85-87 | pending becomes acknowledged in memory |
| `BootConfig.Config.ClearRecord` | kernel/crashdump.c:89-98 | all six keys are gone when the record was acknowledged |
| `BootConfig.Config.BootDecision` | kernel/main.c:145-173 | the boot decision is the machine's boot step: the mode and the count on disk are those of `BootIs` |
| `BootConfig.Config.FirstKeyRead` | kernel/syscall.c:319-326 | the first keyboard read is the machine's step |
| `BootConfig.Config.LeaveSafeMode` | kernel/safemode.c:80-88 | the normal exit is the machine's step |

## Left out

- Disk errors in the FAT16 driver, and reading the geometry out of the boot sector: the model starts from a volume of known geometry and I/O that works; calls into the file system do not overlap.
- fat16_readdir and files in the boot archive (ramfs): thin users of the iterator and of a byte array.
- Vfs.VfsWrite: for file descriptors of the file system; the pipe backend is `Kernel.Tables.WritePass`.
- Fat16GetPath.PathRoundTrip: for names with a space inside, which the kernel makes from components with spaces, the text form drops the spaces.
- Fat16Runs.Run: a run ends with the first call that breaks the volume; calls on a ruined volume are not modelled.
- Fat16Torn: an image that shows a volume may have clusters in its FAT that are in use by nothing; that they are lost then is not stated.
- SYS_KILL and several processes inside one pipe end at the same time; fork is one step of the machine; process ids do not wrap.
- Context switches, interrupts inside an interrupts-off section, and hardware registers.
- Pmm: a bitmap word is modelled as its bits; regions do not wrap around the 32-bit space.
- Memory above 8 MB: the allocator never hands it out.
- Heap.KernelHeap: headers are a map from addresses, apart from the bytes of the frames they lie in; memory that user data has overwritten is never read as a header, so `Kfree` is stated for pointers to places where a header was once written.
- ElfLoad.Load: for segments that start on a page boundary or have no bytes in the file, since others are loaded wrong (`CopyLandsRight`); the pages of an image that ran out of memory stay mapped, as in the source.
- ElfLoad.CopySegment: for the same segments.
- ConfigText.SetLaw: for lines without a repeated key; `RepeatedKey` says what holds with one.
- ConfigText.RemoveLaw: the same.
- BootConfig.Config: the configuration sector is available (`guard_ok`) and every line in it ends in a newline, as in everything the kernel writes; crashes happen between the modelled calls.
- Safe Mode screens, console output, shell, editor and user programs.
