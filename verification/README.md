# xv6, verified models

Models of the hardest parts of xv6 for RISC-V, the kernel and three of its user programs, with proofs about them. A
module stands beside each source file or component. Code that computes is a function; code that updates things in place is
a method of a class proved against such a function; code that several CPUs or processes run at once is a state machine
whose steps are the stretches between locks, with theorems about every run. What such a machine records of itself is tied
to the calls of the run by the modules named after histories.

- **The log** (`Disk`, `Log`, `LogDevice`, `GroupCommit`, `LogHistory`, `LogSpace`, `LogBudget`): crash atomicity, group
  commit over all interleavings, and space.
- **The buffer cache** (`BufferList`, `BufferCache`, `BufferHistory`): the LRU ring, and coherence under all interleavings.
- **Files** (`Bytes`, `FileBlocks`, `FileBytes`, `FileHoles`, `FileSystem`, `FileWrite`, `ImageSpace`, `Mkfs`,
  `RootRead`): block ownership, files as byte sequences, `filewrite()`'s transactions, and the image `mkfs` builds.
- **Directories and inodes** (`Links`, `Paths`, `SysFile`, `DeadDirectories`, `InodeTable`, `InodeHistory`,
  `StrayLookups`): link counts, where paths lead, and the inode table.
- **Processes** (`Proc`, `ProcHistory`, `Pipe`, `PipeBytes`, `SleepLock`): the process table, pipes and sleep-locks.
- **Memory** (`PageTable`, `Uvm`, `UserCopy`): page tables as a flat map, conservation of pages, and copies to and from user
  space.
- **The disk driver** (`Virtio`, `VirtioHistory`): descriptors and the two rings.
- **User programs** (`Umalloc`, `Shell`, `ShellPrint`, `ShellGrammar`, `Grep`): the allocator, the shell's parser and the
  matcher.

`Options` holds the one shared datatype. `dafny verify dfyconfig.toml` checks everything.

## Where the code falls short

Some properties one would expect do not hold. Each has a lemma with an input or run that shows it, and a lemma that says
exactly when the property does hold.

- An operation allowed to append MAXOPBLOCKS blocks can trip "too big a transaction": the panic is out of reach exactly when
  MAXOPBLOCKS + 2 * budget is below the log's capacity, so up to 9 blocks on the log mkfs makes (`LogSpace.GuardExact`,
  `LogSpace.GuardFires`). The kernel's own calls stay within 9 when there is one bitmap block (`LogBudget.CallFits`,
  `CallsNeverPanic`).
- read() calls readi() outside any transaction. When it comes upon a hole and a block is free (`FileHoles.ReadiLogsExact`)
  log_write() panics "outside of trans" (`GroupCommit.OutsideExact`, `RootRead.FileReadPanics`), or, if some other operation
  is outstanding, uses up log space nobody reserved (`LogSpace.OutsideFires`). The root directory of some mkfs images is
  such a file (`RootRead.ReadPastEntries`).
- readi() never writes the inode back, so the block it allocates for a hole is marked on disk and named by no inode
  (`FileHoles.ReadiDiskExact`, `RootRead.ReadPastEntries`). With no block free, reading a directory with a hole panics
  (`FileHoles.EntryReadExact`).
- In a removed directory that is still somebody's current directory, creating any kind of inode, or linking a file, makes
  link counts wrong (`DeadDirectories.CreateExact`, `LinkExact`, `EntryInRemoved`).
- The ".." of such a directory may name a freed inode; looking it up ends in ilock()'s panic
  (`DeadDirectories.LookupExact`, `WalkExact`, `StaleParent`), or races with iput() (`StrayLookups.SoundExact`,
  `StrayPanics`).
- A writer killed after it has put bytes into a pipe returns without waking the readers (`Pipe.LostWakeupExact`,
  `StrandedReader`).
- kill(0) finds a slot not in use and marks it killed, and allocproc() does not clear the mark: the next process forked into
  the slot starts out killed (`ProcHistory.BornKilledExact`, `BornKilled`).
- mkfs rounds the size of the root directory up past its last block when its entries fill whole blocks, leaving a hole
  (`Mkfs.RootRounded`, `RootHole`); reading a hole allocates (`FileHoles.ReadiExact`).
- mkfs does not check its number of files: from the 207th on, inodes lie where the free map goes and are overwritten
  (`Mkfs.InodesFit`, `InodeOverwritten`).
- malloc() passes its request to sbrk() as an int (`Umalloc.SbrkExact`, `RequestFits`, `HugeRequest`).
- grep prints nothing from the first line of 1023 or more characters, or with a NUL, onwards (`Grep.PrintedExact`,
  `LongLine`).

## Model

| member | source | states |
|---|---|---|
| `Log.EncodeDecodes` | kernel/log.c:87-114 | a header written by write_head() is read back by read_head() as the same list and no other |
| `Log.RecoveryPrefix` | kernel/log.c:69-83 | recovery cut off after any of its writes still leaves the same disk recoverable |
| `Log.RecoversTo` | kernel/log.c:117-123 | however often recovery crashes part way, the one that completes gives the same home blocks and an empty header |
| `Log.CommitPrefix` | kernel/log.c:178-203 | the disk after any prefix of commit()'s writes recovers to the old disk up to the header write and to the new one from it on |
| `Log.CrashAtomicity` | kernel/log.c:68-203 | for every prefix of commit()'s writes, then any crashes inside recovery, then one completed recovery: exactly the old or exactly the new home blocks, and an empty header |
| `Log.AbsorbGood` | kernel/log.c:214-235 | log_write() adds its block to the header once, keeping the entries distinct and outside the log |
| `LogDevice.LogDev.WriteLog` | kernel/log.c:179-191 | write_log()'s disk writes, in order, and their effect on disk and cache |
| `LogDevice.LogDev.InstallTrans` | kernel/log.c:69-83 | install_trans()'s disk writes, in order, and their effect on disk and cache |
| `LogDevice.LogDev.WriteHead` | kernel/log.c:103-114 | write_head() writes one block, the encoded header |
| `LogDevice.LogDev.ReadHeader` | kernel/log.c:87-97 | read_head() reads the encoded header back |
| `LogDevice.LogDev.Commit` | kernel/log.c:194-203 | commit()'s disk writes are exactly the ones the crash theorem is about, and cached home blocks do not change |
| `LogDevice.LogDev.RecoverFromLog` | kernel/log.c:117-123 | recover_from_log() performs exactly the recovery of the crash theorem |
| `LogDevice.LogDev.BeginOp` | kernel/log.c:127-142 | begin_op() admits an operation exactly when no commit runs and its reservation fits |
| `LogDevice.LogDev.EndOp` | kernel/log.c:147-175 | end_op() commits exactly when it is the last operation, and panics exactly when a commit is running |
| `LogDevice.LogDev.LogWrite` | kernel/log.c:215-235 | log_write()'s two panics, exactly, and absorption otherwise |
| `GroupCommit.StepPreserves` | kernel/log.c:126-235 | every step of begin_op/log_write/end_op, commit, crash and recovery keeps the invariant |
| `GroupCommit.RecoveredIsWholeOperations` | kernel/log.c:126-235 | over all interleavings and crashes, a recovered disk is the replay of a prefix, in commit order, of groups of whole operations |
| `GroupCommit.CommittedIsDurable` | kernel/log.c:193-203 | what is committed stays committed, across crashes too |
| `LogHistory.HistoryIsSteps` | kernel/log.c:126-235 | that history is exactly the begin_op(), end_op() and log_write() calls of the run that did not panic, in order, less what was not committed at a crash |
| `LogHistory.BlocksHoldLast` | kernel/log.c:69-235 | bread() returns the last value so written to a home block, and so does the disk whenever the log is idle |
| `LogHistory.LastWriteWins` | kernel/log.c:214-235 | of several log_write() calls on a block, absorbed or not, the last is what bread() returns and what is on disk after the commit |
| `GroupCommit.CommitsAlone` | kernel/log.c:146-175 | committing implies no operation outstanding, so end_op()'s panic is unreachable, and an idle log has committed everything |
| `GroupCommit.OutsideExact` | kernel/log.c:214-235 | log_write()'s "outside of trans" panic is reached in a run if and only if somebody who has not called begin_op() calls it while no operation is outstanding and the log is not full |
| `LogSpace.ReservationHolds` | kernel/log.c:126-143 | if log_write() is called only inside operations and each appends at most MAXOPBLOCKS blocks, log plus reservations never exceed LOGSIZE |
| `LogSpace.GuardSilent` | kernel/log.c:214-235 | a budget with MAXOPBLOCKS + 2 * budget below the capacity never trips the size panic, in any run whose log_write()s are inside operations |
| `LogSpace.GuardFires` | kernel/log.c:214-235 | a run that trips it, for every budget and log that fail that condition |
| `LogSpace.GuardExact` | kernel/log.c:214-235 | "too big a transaction" is unreachable from inside operations if and only if MAXOPBLOCKS + 2 * budget is below the log's capacity; with the log mkfs makes, if and only if the budget is at most 9 |
| `LogSpace.OutsideFires` | kernel/log.c:214-235 | with callers outside operations a run trips it whatever the budget |
| `LogSpace.OutsidePanics` | kernel/log.c:214-235 | one such call with nobody inside is a run to "outside of trans" |
| `LogBudget.Rebudget` | kernel/log.c:126-235 | a run whose operations each keep to at most m distinct blocks is a run under the budget m |
| `LogBudget.CallFits` | kernel/sysfile.c:124-302 | with one bitmap block, the distinct blocks a call logs on any of its paths: filewrite() at most 7 a transaction, create() 9, link() and unlink() 5, iput() 2 |
| `LogBudget.CallsNeverPanic` | kernel/log.c:214-235 | on such a disk and the log mkfs makes, runs of these calls never reach "too big a transaction", however they interleave or crash |
| `LogBudget.FullBudgetFails` | kernel/param.h:9-10 | a budget of MAXOPBLOCKS trips it on every log |
| `BufferList.RelinksFront` | kernel/bio.c:117-137 | brelse()'s six pointer stores are a move to the front of the list |
| `BufferList.MoveKeepsSorted` | kernel/bio.c:117-137 | the list stays sorted by time of last release |
| `BufferList.Bcache.constructor` | kernel/bio.c:37-53 | binit() links every buffer into one ring, newest first |
| `BufferList.Bcache.FindCached` | kernel/bio.c:59-77 | bget()'s first scan finds the cached buffer exactly when there is one |
| `BufferList.Bcache.FindUnused` | kernel/bio.c:77-89 | its second scan finds the unused buffer released longest ago, exactly when there is one |
| `BufferList.Bcache.Bget` | kernel/bio.c:59-89 | bget(): hit, recycling of the least recently used unused buffer, and the panic, each exactly when |
| `BufferList.Bcache.Brelse` | kernel/bio.c:117-137 | the last brelse() moves the buffer to the front and leaves a valid ring |
| `BufferList.Bcache.Bpin` | kernel/bio.c:140-144 | bpin() adds a reference |
| `BufferList.Bcache.Bunpin` | kernel/bio.c:147-151 | bunpin() takes it away |
| `BufferCache.StepKeepsInv` | kernel/bio.c:59-151 | every step of bread, bwrite, brelse, bpin and bunpin, in any interleaving, keeps the cache invariant |
| `BufferCache.ReadsLastWritten` | kernel/bio.c:93-112 | in every run whoever holds a buffer sees the last value anyone wrote to that block, and holds it alone |
| `BufferCache.CountsExact` | kernel/bio.c:59-151 | at most one buffer per block, and refcnt is exactly the holders and waiters plus one if the block is in the log |
| `BufferCache.EvictionLosesNothing` | kernel/bio.c:59-89 | a buffer bget() may recycle has no users, is not in the log, and its last value is on disk |
| `BufferHistory.CacheIsSteps` | kernel/bio.c:59-151 | told from the calls alone: a holder holds the block it asked for with the last value put into it, the disk has the last value sent to it, and a block is pinned exactly from log_write() to its install |
| `Bytes.LeRoundTrip` | mkfs/mkfs.c:47-66 | little-endian numbers read back |
| `Bytes.BitsAreBits` | kernel/fs.c:66-105 | the free map's byte arithmetic is an array of bits |
| `FileBlocks.OwnedMeans` | kernel/fs.c:372-453 | the ownership invariant means: no block is held twice, and a bit is set exactly for metadata and held blocks |
| `FileBlocks.BmapOwned` | kernel/fs.c:383-421 | bmap() keeps ownership on every path, out of space too, gives zeroed blocks, and fails only when none is free |
| `FileBlocks.TruncateOwned` | kernel/fs.c:426-453 | itrunc() frees exactly the inode's blocks and nobody else's |
| `FileBytes.WriteFromWrites` | kernel/fs.c:506-539 | writei()'s loop changes exactly the bytes it reports and stops short only when no block is free |
| `FileBytes.WriteiRefines` | kernel/fs.c:506-539 | writei() is overwriting a byte sequence, with its refusals exactly and every other file unchanged, also when the disk fills up part way |
| `FileBytes.ReadiRefines` | kernel/fs.c:472-496 | readi() of a file without holes is a slice and allocates nothing |
| `FileBytes.WriteThenRead` | kernel/fs.c:472-539 | what was written reads back |
| `FileBytes.TruncatedEmpty` | kernel/fs.c:426-453 | itrunc() leaves an empty file and no other file changed |
| `FileHoles.ReadiDelivers` | kernel/fs.c:472-496 | readi() of any file delivers a prefix of its bytes, holes as zeroes, all of them unless no block is free, changes no file, and keeps ownership as memory sees it |
| `FileHoles.ReadiExact` | kernel/fs.c:472-496 | readi() never allocates if and only if the file has no holes |
| `FileHoles.ReadiLogsExact` | kernel/fs.c:472-496 | a readi() calls log_write() if and only if it is not refused, a block is free and the bytes it covers include a hole |
| `FileHoles.ReadiDiskExact` | kernel/fs.c:472-496 | after a readi(), which calls no iupdate(), the disk still has one owner for every block it marks if and only if no block was free or nothing it reads lacks its place in the inode |
| `FileHoles.BmapFails` | kernel/fs.c:383-421 | bmap() fails if and only if the block is missing and so are the one or two free blocks it takes |
| `FileHoles.EntryReadExact` | kernel/fs.c:552-575 | reading one directory entry falls short, and dirlookup(), dirlink() or isdirempty() panics, if and only if its block is a hole that bmap() cannot fill |
| `FileSystem.FileSys.Balloc` | kernel/fs.c:66-88 | balloc() takes the lowest free block, zeroed, or fails |
| `FileSystem.FileSys.Bfree` | kernel/fs.c:92-105 | bfree() clears the bit; it panics exactly on a free block |
| `FileSystem.BmapLogged` | kernel/fs.c:383-421 | the blocks bmap() logs include every block it changes, the indirect block too, and the free-map block of every bit |
| `FileSystem.WriteLogged` | kernel/fs.c:506-539 | writei()'s loop likewise |
| `FileSystem.ReadLogged` | kernel/fs.c:472-496 | readi()'s loop likewise |
| `FileSystem.FileSys.BlockMap` | kernel/fs.c:383-421 | bmap() as it runs performs the function whose ownership is proved, logs just the blocks named, and everything it changes is logged |
| `FileSystem.FileSys.WriteInode` | kernel/fs.c:506-539 | writei() as it runs refines the byte overwrite, logs just the blocks named, and every block, bit and inode it changes is logged |
| `FileSystem.FileSys.ReadInode` | kernel/fs.c:472-496 | readi() as it runs is the function proved about, logs just the blocks named, and every block and bit it changes is logged |
| `FileSystem.FileSys.Itrunc` | kernel/fs.c:426-453 | itrunc() as it runs; every bit and inode it changes is logged, and no more than the inode and the free map; "freeing free block" is unreachable |
| `FileWrite.TransactionFits` | kernel/file.c:155-174 | a filewrite() transaction logs at most 10 distinct blocks wherever it starts, at most 7 with one bitmap block |
| `FileWrite.OpenFile.FileWrite` | kernel/file.c:135-181 | the file gets a prefix of the bytes, f->off moves as far, -1 means the disk is full, the file too large or the offset past its end, and every transaction fits |
| `ImageSpace.FirstUnused` | mkfs/mkfs.c:255-296 | handing out blocks by freeblock++ is balloc()'s choice |
| `ImageSpace.WriteExactly` | mkfs/mkfs.c:255-296 | an append falls short exactly when the blocks left are fewer than the file's growth needs, and otherwise takes just those |
| `Mkfs.Image.Ialloc` | mkfs/mkfs.c:223-234 | ialloc() hands out inodes in order |
| `Mkfs.Image.Balloc` | mkfs/mkfs.c:237-250 | balloc() sets exactly the first used bits |
| `Mkfs.Image.Iappend` | mkfs/mkfs.c:255-296 | iappend() is writei() at the end of the file and dies exactly when that would fall short |
| `Mkfs.Image.Build` | mkfs/mkfs.c:69-175 | main() succeeds if and only if every file is small enough and all fit; then bitmap and ownership agree, every file holds its bytes, the root its entries, and the root has a hole exactly when its entries fill whole blocks |
| `Mkfs.RootRounded` | mkfs/mkfs.c:166-170 | rounding the root's size up leaves a hole exactly when the size is a multiple of the block size |
| `Mkfs.RootHole` | mkfs/mkfs.c:166-170 | 62 files reach it |
| `Mkfs.InodesFit` | mkfs/mkfs.c:187-199 | an inode lies below the free map if and only if its number is below 208; the next 16 lie on it |
| `Mkfs.InodeOverwritten` | mkfs/mkfs.c:236-250 | after balloc() none of those is a file |
| `RootRead.ReadPastEntries` | kernel/file.c:106-130 | on the image of 62 files, read() of one byte of the root calls log_write(), and leaves on disk a marked block that no inode names |
| `RootRead.FileReadPanics` | kernel/file.c:106-130 | any such read, with no operation outstanding, reaches "outside of trans" |
| `Links.RootWalk` | kernel/fs.c:652-684 | from a linked directory no path comes upon a free inode, and what is found is linked |
| `Links.LinkKeeps` | kernel/sysfile.c:124-170 | sys_link() keeps the counts and the tree |
| `Links.CreateKeeps` | kernel/sysfile.c:246-302 | create() of a file, device or directory keeps them |
| `Links.UnlinkKeeps` | kernel/sysfile.c:189-243 | sys_unlink() keeps them; its nlink < 1 panic is unreachable |
| `Links.CloseKeeps` | kernel/fs.c:337-362 | the last iput() of an unlinked inode keeps them |
| `Links.FreshInv` | mkfs/mkfs.c:69-175 | the tree mkfs makes satisfies the invariant |
| `Links.LinkCountsExact` | kernel/sysfile.c:124-302 | in every run nlink is exactly the number of names, and no walk from the root comes upon a free inode |
| `Paths.FoundExact` | kernel/fs.c:652-684 | namex() finds an inode if and only if a chain of first entries in use with the path's names leads to it |
| `Paths.MissingExact` | kernel/fs.c:652-684 | it finds nothing if and only if such a chain stops at an inode in use that the next name does not lead out of |
| `Paths.PanicExact` | kernel/fs.c:652-684 | it panics if and only if such a chain comes upon a free inode before the path ends |
| `Paths.LinkedFinds` | kernel/sysfile.c:124-170 | after sys_link() the new path leads to the inode and every other path still where it did |
| `Paths.CreatedFinds` | kernel/sysfile.c:246-302 | after create() likewise |
| `Paths.UnlinkedMisses` | kernel/sysfile.c:189-243 | after sys_unlink() the path leads nowhere, and another path leads where it did if and only if it used neither the entry removed nor the inode freed |
| `Paths.NamesDistinct` | kernel/fs.c:580-606 | in every run no directory gets two entries of one name |
| `SysFile.FileTree.DirLookup` | kernel/fs.c:552-575 | dirlookup() finds the first entry with the name |
| `SysFile.FileTree.Namex` | kernel/fs.c:652-684 | namex() as it runs finds an inode if and only if the path leads to it; for the parent, the path without its last name |
| `SysFile.FileTree.DirLink` | kernel/fs.c:580-606 | dirlink() succeeds exactly when the name is new and there is room, and changes nothing otherwise |
| `SysFile.FileTree.IsDirEmpty` | kernel/sysfile.c:174-186 | isdirempty() answers exactly |
| `SysFile.FileTree.SysLink` | kernel/sysfile.c:124-170 | sys_link() succeeds exactly when it should, afterwards the new path finds what the old one did, and every failure path undoes its nlink++ |
| `SysFile.FileTree.SysUnlink` | kernel/sysfile.c:189-243 | sys_unlink() succeeds exactly when it should, afterwards the path finds nothing, it keeps the invariant, and changes nothing otherwise |
| `SysFile.FileTree.Create` | kernel/sysfile.c:246-302 | create(): when it opens, makes, fails or panics, exactly; afterwards the path finds what it returned; a failure after the inode was written leaves no trace |
| `SysFile.FileTree.Close` | kernel/fs.c:337-362 | giving up a reference keeps the invariant |
| `DeadDirectories.WalkExact` | kernel/fs.c:652-684 | from any directory, a walk comes upon a free inode exactly when its path climbs by "." and ".." from a removed directory, through removed ones only, to a freed one |
| `DeadDirectories.LookupExact` | kernel/fs.c:552-575 | in reachable trees dirlookup() never finds a free inode if and only if the directory is linked or the name is not ".." |
| `DeadDirectories.StaleParent` | kernel/fs.c:652-684 | a reachable tree in which ".." of a removed current directory names a freed inode and ilock() panics |
| `DeadDirectories.CreateExact` | kernel/sysfile.c:246-302 | create() of any kind keeps the counts exact if and only if its directory is linked |
| `DeadDirectories.LinkExact` | kernel/sysfile.c:124-170 | sys_link() likewise |
| `DeadDirectories.EntryInRemoved` | kernel/sysfile.c:246-302 | a reachable tree in which create() and sys_link() make the counts wrong |
| `InodeTable.PutBeginAlone` | kernel/fs.c:337-362 | the reference iput() frees an inode through is the only one, so its acquiresleep() does not wait |
| `InodeTable.TableExact` | kernel/fs.c:247-362 | in every run, stray lookups included, no inode has two entries and ref is exactly the number of references |
| `InodeTable.FreedBySoleHolder` | kernel/fs.c:337-362 | in runs without unsound lookups an inode is truncated and freed only by its sole reference, unlinked and allocated |
| `InodeTable.LockedHasType` | kernel/fs.c:293-317 | in such runs ilock()'s "no type" panic is unreachable and memory agrees with disk |
| `InodeTable.NeverFreedTwice` | kernel/fs.c:337-362 | in such runs no inode is freed twice without ialloc() in between |
| `InodeTable.Itable.Get` | kernel/fs.c:247-277 | iget()'s scan makes the choice the machine allows; it panics exactly when the table is full |
| `InodeHistory.TableIsSteps` | kernel/fs.c:247-362 | told from the calls alone: a reference is in the table exactly from iget() or idup() to the end of its iput(), for the inode asked for, and every inode on disk is as the last ialloc(), iupdate() or freeing iput() left it |
| `StrayLookups.SoundExact` | kernel/fs.c:247-317 | after iget() of an arbitrary number, no later ilock() comes upon a free inode if and only if that inode was allocated, not about to be freed and not just marked by ialloc() |
| `StrayLookups.StrayPanics` | kernel/fs.c:337-362 | a run in which the truncating holder is not alone and ilock() panics |
| `Proc.StepKeepsInv` | kernel/proc.c:110-616 | every step of fork, exit, wait, kill, yield, sleep, wakeup and the scheduler keeps the invariant |
| `Proc.RunningMeansOneCpu` | kernel/proc.c:445-508 | whenever p->lock is free, p is RUNNING if and only if exactly one CPU has it as c->proc |
| `Proc.ParentsAlive` | kernel/proc.c:280-386 | every started process but init has a parent, and no parent is a zombie or unused |
| `Proc.NoLostChild` | kernel/proc.c:347-435 | whenever wait_lock is free nobody sleeps in wait() with a zombie child |
| `Proc.SchedSafe` | kernel/proc.c:491-508 | sched()'s caller holds p->lock and no other lock of the table, not wait_lock, and is not RUNNING |
| `Proc.ZombieStays` | kernel/proc.c:347-386 | no CPU ever executes past exit()'s sched(): "zombie exit" is unreachable |
| `ProcHistory.Lifecycle` | kernel/proc.c:110-616 | at every step of every run a process's state changes only in the ways listed, each by the step that is to make it |
| `ProcHistory.ParentIsForker` | kernel/proc.c:279-386 | a process's parent is the one that forked it unless that one has called exit() since; then possibly init |
| `ProcHistory.KilledExact` | kernel/proc.c:598-616 | p->killed is set if and only if kill() has chosen the slot since it was last freed |
| `ProcHistory.SleepExact` | kernel/proc.c:548-592 | a process sleeps on a channel if and only if it called sleep() on it and has been neither woken nor killed since |
| `ProcHistory.WaitExact` | kernel/proc.c:391-435 | wait() returns -1 if and only if it has been killed or has no child; it sleeps only without a zombie child |
| `ProcHistory.BornKilledExact` | kernel/proc.c:598-616 | a forked process starts out killed if and only if kill() has chosen its slot since it was last freed |
| `ProcHistory.BornKilled` | kernel/proc.c:598-616 | a run in which it does, killed before it existed |
| `Pipe.CountersTell` | kernel/pipe.c:77-130 | the 32-bit counters tell full and empty apart across wrap-around |
| `Pipe.PrefixDelivered` | kernel/pipe.c:77-130 | in every run what has come out is a prefix of what went in and the ring holds the rest, byte for byte |
| `PipeBytes.WritersInOrder` | kernel/pipe.c:77-103 | what a process has put in since it called pipewrite() is the first bytes it was given, in order; all of them when it ends by itself |
| `PipeBytes.ProducedIsSent` | kernel/pipe.c:77-130 | what went in is the interleaving, in the order of the steps, of what the writers were given; what came out is a prefix of it |
| `PipeBytes.SingleWriter` | kernel/pipe.c:77-130 | with one writer that is its writes one after the other |
| `PipeBytes.ReadIsContiguous` | kernel/pipe.c:106-130 | a read() gets consecutive bytes of the stream |
| `Pipe.WriterSleepsOnFull` | kernel/pipe.c:77-103 | whenever the lock is free a sleeping writer has a full pipe and an open read end |
| `Pipe.ReaderSleepsOnEmpty` | kernel/pipe.c:106-130 | a sleeping reader has an empty pipe and an open write end, in runs where no killed writer leaves bytes unannounced |
| `Pipe.LostWakeupExact` | kernel/pipe.c:77-103 | no reader is ever left asleep beside unannounced bytes if and only if no writer is killed after adding bytes while a reader sleeps |
| `Pipe.StrandedReader` | kernel/pipe.c:84-87 | a run in which one is |
| `SleepLock.OneOwner` | kernel/sleeplock.c:22-52 | at most one owner, lk->pid names it, holdingsleep() says yes to it alone, and nobody sleeps on a free lock |
| `SleepLock.OwnerTookIt` | kernel/sleeplock.c:22-52 | the lock is taken exactly from somebody's acquiresleep() to its releasesleep(), and that process owns it |
| `PageTable.PteRoundTrip` | kernel/riscv.h:360-371 | page-table entries survive encoding |
| `PageTable.IndicesTell` | kernel/riscv.h:373-376 | pages below MAXVA differ in some index |
| `PageTable.EntriesApart` | kernel/vm.c:86-103 | distinct pages, of one table or two, never share an entry |
| `PageTable.MapOwned` | kernel/vm.c:144-172 | writing a leaf entry is an insertion into the flat map and keeps every page's single use |
| `PageTable.UnmapOwned` | kernel/vm.c:178-199 | clearing one is a removal |
| `Uvm.Vm.Kalloc` | kernel/kalloc.c:69-82 | kalloc() takes the first free page or fails |
| `Uvm.Vm.Walk` | kernel/vm.c:86-103 | walk() finds or makes the entry's table, changes no mapping, and fails only when memory is out |
| `Uvm.Vm.MapPages` | kernel/vm.c:144-172 | mappages() inserts its pages in order and stops at the first that does not fit |
| `Uvm.Vm.UvmUnmap` | kernel/vm.c:178-199 | uvmunmap() removes its pages; it panics exactly when one is not mapped |
| `Uvm.Vm.UvmDealloc` | kernel/vm.c:263-274 | afterwards exactly the pages below the new size are mapped |
| `Uvm.Vm.UvmAlloc` | kernel/vm.c:233-256 | exactly the pages below the new size, zeroed, or every mapping as before; it cannot fail with three free pages per page, nor panic |
| `Uvm.Vm.UvmCopy` | kernel/vm.c:313-340 | a full copy or none, the parent untouched; it cannot fail with three free pages per page, nor panic |
| `Uvm.CopiedApart` | kernel/vm.c:313-340 | parent and child share no page and have equal contents and permissions |
| `Uvm.Vm.FreeWalk` | kernel/vm.c:279-294 | freewalk() gives back every table once and cannot panic |
| `Uvm.Vm.UvmFree` | kernel/vm.c:299-304 | uvmfree() gives back every page of the table once |
| `Uvm.Vm.ProcFreePagetable` | kernel/proc.c:211-216 | proc_freepagetable() likewise, leaving trampoline and trapframe pages alone |
| `Uvm.ReleasedOthers` | kernel/vm.c:279-304 | giving one table up changes no other's mappings |
| `UserCopy.OutChunk` | kernel/vm.c:359-383 | a page's worth of copyout() is that many bytes of the byte-at-a-time copy |
| `UserCopy.InChunk` | kernel/vm.c:389-408 | a page's worth of copyin() likewise |
| `UserCopy.StringIs` | kernel/vm.c:415-451 | what copyinstr() delivers, and when it fails |
| `UserCopy.OutIs` | kernel/vm.c:359-383 | copyout() puts the first bytes given at their addresses, changes no other byte of any page and no mapping, and stops short exactly at an address the user may not write |
| `UserCopy.WroteBytes` | kernel/vm.c:359-383 | seen through the page table, the addresses written hold the bytes given and every other address what it held |
| `UserCopy.InIs` | kernel/vm.c:389-408 | copyin() delivers the bytes at its addresses and stops short exactly at an unreadable one |
| `UserCopy.OutThenIn` | kernel/vm.c:359-408 | what was copied out is copied in again |
| `Uvm.Vm.CopyOut` | kernel/vm.c:359-383 | copyout() as it runs puts the bytes there and nothing else, also when it fails part way |
| `Uvm.Vm.CopyIn` | kernel/vm.c:389-408 | copyin() as it runs delivers the bytes at its addresses, up to the first unreadable one |
| `Uvm.Vm.CopyInStr` | kernel/vm.c:415-451 | copyinstr() as it runs delivers the bytes up to and including the first zero, and fails exactly when there is none in reach |
| `Virtio.StepKeepsInv` | kernel/virtio_disk.c:216-327 | every step of driver and device keeps the queue invariant |
| `Virtio.DescriptorsPartitioned` | kernel/virtio_disk.c:157-213 | each descriptor is free or in exactly one request's chain of three |
| `Virtio.AvailNeverOverwritten` | kernel/virtio_disk.c:216-292 | the driver never overwrites an avail slot the device has not read, across wrap-around |
| `Virtio.TakenOnce` | kernel/virtio_disk.c:216-292 | the device takes each request once |
| `Virtio.CompletedOnce` | kernel/virtio_disk.c:295-327 | the interrupt handler completes each buffer once, the right one, with status 0 |
| `Virtio.FreeNeverPanics` | kernel/virtio_disk.c:170-197 | free_chain() frees three descriptors in use |
| `VirtioHistory.RequestsAreSteps` | kernel/virtio_disk.c:216-292 | a buffer has its descriptors exactly from its submission until virtio_disk_rw() returns |
| `VirtioHistory.TakenInOrder` | kernel/virtio_disk.c:216-292 | the device takes requests up in the order of submission |
| `VirtioHistory.SeenInOrder` | kernel/virtio_disk.c:295-327 | the interrupt handler completes them in the order in which the device finished them |
| `Virtio.DescTable.AllocDesc` | kernel/virtio_disk.c:157-166 | alloc_desc() takes the lowest free descriptor or fails |
| `Virtio.DescTable.FreeDesc` | kernel/virtio_disk.c:170-182 | free_desc()'s panics, exactly |
| `Virtio.DescTable.FreeChain` | kernel/virtio_disk.c:186-197 | free_chain() frees the whole chain |
| `Virtio.DescTable.Alloc3Desc` | kernel/virtio_disk.c:202-213 | alloc3_desc() takes three, or none and then fewer than three were free |
| `Umalloc.JoinedOrdered` | user/umalloc.c:25-44 | free() keeps the list ordered and fully joined |
| `Umalloc.JoinedUnits` | user/umalloc.c:25-44 | free() adds exactly the block's units |
| `Umalloc.CarvedUnits` | user/umalloc.c:64-90 | malloc() takes exactly the block's units |
| `Umalloc.SearchTurn` | user/umalloc.c:25-44 | free()'s search stops at the right node and nowhere else |
| `Umalloc.Heap.Free` | user/umalloc.c:25-44 | free() as it runs, on the circular list |
| `Umalloc.Heap.MoreCore` | user/umalloc.c:47-61 | morecore() joins what it asked for; sbrk() supplies what the int says |
| `Umalloc.Heap.Malloc` | user/umalloc.c:64-90 | malloc() hands out free units, calls sbrk() only when no block is large enough, fails only if that failed, and afterwards every unit is really there if and only if the request fits an int |
| `Umalloc.SbrkExact` | user/umalloc.c:47-61 | the units asked for are there if and only if their bytes fit an int |
| `Umalloc.RequestFits` | user/umalloc.c:64-90 | that is, for requests of at most 2147483616 bytes |
| `Umalloc.HugeRequest` | user/umalloc.c:47-61 | malloc(0xffffffff) and malloc(0x80000000) hand out units that are not there |
| `Shell.ParseCmd` | user/sh.c:329-343 | the parser ends on every line; every word is a maximal word of it and no command has more than 9 arguments |
| `Shell.NulTerminate` | user/sh.c:451-494 | nulterminate() in place |
| `Shell.StringsAreWords` | user/sh.c:451-494 | afterwards every argv and file string is exactly the word parsed |
| `Shell.GetToken` | user/sh.c:267-309 | gettoken()'s loops compute the token |
| `Shell.Peek` | user/sh.c:312-321 | peek() |
| `ShellPrint.RoundTrip` | user/sh.c:329-447 | parsing the fully parenthesised print of any command tree gives the tree back |
| `ShellGrammar.ParseExact` | user/sh.c:329-447 | a line parses to a command if and only if its tokens, however spaced, are those of a line of the grammar that stands for it: precedence, redirections before, between and after words, at most 9 words |
| `ShellGrammar.Unambiguous` | user/sh.c:329-447 | so no line stands for two commands |
| `Grep.MatchHere` | user/grep.c:85-96 | matchhere() is sound and complete for the language of the pattern's items |
| `Grep.MatchStar` | user/grep.c:99-106 | matchstar() likewise |
| `Grep.Match` | user/grep.c:73-82 | match() finds a text exactly when the pattern's language says so |
| `Grep.Grep` | user/grep.c:12-35 | however read() cuts the input, the output is the same |
| `Grep.PrintedExact` | user/grep.c:12-35 | that output is every matching line, for every pattern, if and only if every line is shorter than 1023 characters and holds no NUL |
| `Grep.LongLine` | user/grep.c:12-35 | a line it never prints |

## Left out

- Links.LinkCountsExact: nlink is unbounded; the C field is a short that wraps at 32768 links. The runs are whole operations
  one at a time, and new entries go into linked directories only; `DeadDirectories` says what happens otherwise.
- SysFile: the references a system call holds while it runs are elided, and path strings come already split into elements.
- FileSystem: the in-memory inode and its on-disk copy are one, so what readi() leaves on disk is stated apart
  (`FileHoles.ReadiDiskExact`); a user copy that fails inside readi() or writei() is not a path.
- FileHoles.ReadiDelivers: ownership is that of memory, where the inode has its new addresses; on disk it may be lost, as
  `FileHoles.ReadiDiskExact` says.
- SysFile.FileTree.DirLookup: directories are lists of entries, so readi() never falls short; `FileHoles.EntryReadExact`
  says when it does and dirlookup() panics.
- SysFile.FileTree.DirLink: likewise; whether there is room for one more entry is an input.
- SysFile.FileTree.IsDirEmpty: likewise.
- SysFile.FileTree.SysUnlink: that the path finds nothing is for directories without repeated names, which every run keeps
  (`Paths.NamesDistinct`); mkfs itself does not check its arguments for them.
- FileWrite.OpenFile.FileWrite: no other process changes the file between its transactions; devices and pipes are not
  modelled.
- LogBudget.CallFits: the directories a call walks through have no holes, and none of them but the last is freed by the
  walk's own iput() because another process removed it meanwhile.
- LogBudget.CallsNeverPanic: every log_write() is inside an operation, which a read() of a hole is not.
- Mkfs.Image.Build: at most 206 files, as more overwrite the free map (`Mkfs.InodesFit`); reading the host's files is a
  parameter.
- InodeTable.LockedHasType: that a lookup in a linked directory finds a linked inode is proved of whole operations
  (`Links`, `DeadDirectories`), not of every interleaving of directory reads and writes.
- Proc: only p->lock and wait_lock are modelled; scans that lock and unlock a process without changing it are not steps;
  pids (kill() chooses any slot, free ones too), files and memory of a process, interrupt state and swtch() itself are
  left out. A wakeup() is made by kernel code of a running process: one from an interrupt taken while a CPU is in
  scheduler() is not a step.
- Proc.SchedSafe: sched()'s test that interrupts are off is not modelled.
- Pipe: wakeup() happens within the critical section it is called from.
- Uvm.Vm.UvmAlloc: assumes no more physical pages than pages below TRAPFRAME.
- Uvm: proc_pagetable(), uvmfirst(), uvmclear(), exec() and the kernel's page table, the A, D and G bits and the TLB are
  left out; the trapframe page itself is freed by the caller.
- Virtio: initialisation and the data carried are left out; the device completes each request it takes once, with status 0.
- Umalloc.Heap.Malloc: the program does not write outside its blocks, and the break is a multiple of 16.
- Shell: running commands and reading lines.
- Grep.Grep: read() does not fail.
- Liveness and fairness: that a waiting process runs again.
- Spin locks' memory fences, traps, the UART, PLIC, console, printf, boot code and the other user programs: they would add
  only easier members.
