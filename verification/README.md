# A verified model of xv6

This project models the parts of xv6 (the x86 teaching operating system) whose correctness is
least visible from the code: the crash-safe log, the file system's block map, the buffer cache,
sleep and wakeup, the process table, pipes, page tables, the user-level allocator, the shell's
parser and the grep matcher. Every claim is for all inputs, all runs or all reachable states.

Code that works in place is modelled in place: methods over arrays and fields, each proved
against a function or a step of a state machine, and the properties are proved of those.
Protocols are interleavings of the single steps of any number of processes, with preemption,
kill and crashes wherever they can happen. `dafny verify dfyconfig.toml` covers every file.

| modules | subject |
|---|---|
| `Basics`, `Paths`, `Blocks`, `DiskFormat` | shared types; step sequences; blocks as bytes, little-endian words, bitmap bits; the on-disk format byte by byte |
| `Log`, `LogDevice`, `LogMachine`, `LogProgress`, `LogOverrun` | log.c: disk images of a commit cut anywhere; the code that writes them; transactions of many processes with crashes; that its calls do their work; what a log area that is too small leads to |
| `BufRing`, `BufMachine`, `BufferCache` | bio.c and memide.c: the list, the cache as a machine, the code |
| `FsLayout`, `FileMap`, `FileContent`, `FileSpace`, `Fs` | fs.c and filewrite: on-disk layout, who owns which block, files as byte sequences, blocks needed and blocks free, the code |
| `Malloc`, `Allocator` | umalloc.c: heaps as values, the code |
| `SleepLock`, `ExitWait`, `PipeWakeup`, `Pipe` | sleeplock.c, proc.c and pipe.c: what every interleaving keeps |
| `SleepLockOutcome`, `WaitOutcome`, `PipeOutcome` | what their calls achieve when they return, and that they can |
| `Kalloc`, `PageTable`, `Vm` | kalloc.c and vm.c |
| `ShellGrammar`, `ShellPrint`, `ShellLanguage`, `ShellLexis`, `Shell` | the parser of sh.c: what it computes, printing and parsing back, the language it accepts, how lines spell it, the code |
| `Matcher` | the matcher of grep.c |

## Where the code falls short

Each is proved, with an input that shows it and, but for the last, the exact condition under
which the code is right. The model follows the code throughout.

- The log's guard is read before the lock is taken, so two processes can pass it with one block
  of room left. The reservation still keeps the list within LOGSIZE (`LogMachine.Reservation`),
  but it stays inside the log area in every run if and only if the area is larger than LOGSIZE
  (`LogOverrun.LogFitsIff`), and group commit holds of every run under the same condition
  (`LogOverrun.GroupCommitIff`); mkfs makes it exactly LOGSIZE (mkfs.c:25). In the run of
  `LogOverrun.GroupCommitFails` the commit writes its last log block over a home block.
- `holdingsleep` tells whether somebody holds the lock, not whether the caller does
  (sleeplock.c:44-53), so the tests of bwrite, brelse and iderw (bio.c:112, bio.c:123,
  memide.c:43) let another process through. `brelse` keeps the cache's invariant if and only if
  it panics or the caller is the holder (`BufferCache.Bcache.Brelse`); otherwise the holder loses
  its lock and the count falls below the references still out, as in
  `BufferCache.StolenRelease`.
- `kill` compares pids without looking at the state, so kill(0) marks a slot that was never used,
  and the next process made there is killed from the start (`WaitOutcome.BornKilled`): a child is
  born killed if and only if its slot was marked (`WaitOutcome.ForkMakes`).
- A writer that is killed and finds the pipe full leaves without a wakeup (pipe.c:86-89), so a
  reader can sleep beside a full pipe (`PipeWakeup.StrandedReader`). A step loses a wakeup if and
  only if it is that one while a reader waits (`PipeWakeup.InvStep`).
- `malloc` of more than 2^32 - 8 bytes rounds to a block that is too small
  (`Allocator.PayloadFits`, `Allocator.HugeRequest`). From 2^28 units on, that is for 0x7ffffff1 to
  2^32 - 8 bytes, `morecore` passes `sbrk` a count that an int reads as zero or negative: zero for
  2^29 units, where the product wraps (`Allocator.SbrkExact`), negative below that
  (`Allocator.TooManyBytes`, `Allocator.NegativeRequest`). `malloc` then writes a header to memory
  the process does not have if and only if no free block is large enough
  (`Allocator.Arena.Malloc`).
- A failed `allocuvm` unmaps the whole range it was asked to fill. It loses a mapping if and only
  if the free pages run out before the first page of the range that was mapped
  (`Vm.LosesIff`); `Vm.LostMapping` is a call that does.
- `kfree` of a page that is already free makes the free list cyclic; the list stays a list if and
  only if the page was not on it (`Kalloc.DoubleFree`, `Kalloc.Kmem.Kfree`).
- The shell rejects `a & b` (`ShellLanguage.NoBackgroundThenCommand`): in an accepted line `&` is
  followed only by `&`, `;`, `)` or the end (`ShellLanguage.LineAmp`). It parses `>>` exactly like
  `>` (sh.c:391-393), which the grammar shows as one mode for both.

## Model

| member | source | states |
|---|---|---|
| `Blocks.WordSetWord` | log.c:102-113 | storing one little-endian word of a block changes that word and no other |
| `DiskFormat.WordFormat` | log.c:89-94 | a word of a block is the number its four bytes spell, least significant first |
| `DiskFormat.HeaderFormat` | log.c:34-37 | the header block is a four-byte count and four-byte block numbers |
| `DiskFormat.HeaderWritten` | log.c:102-113 | so is the one write_head makes, whatever the block held |
| `DiskFormat.NodeFormat` | fs.h:29-36 | an on-disk inode is its fields at their offsets in 64 bytes |
| `DiskFormat.BitFormat` | fs.c:65-68 | bit bi of a bitmap block is bit bi % 8 of byte bi / 8 |
| `DiskFormat.Contiguous` | fs.h:38-48 | inode i is 64 * i bytes into the inode table, the bit of block b is b bits into the bitmap |
| `DiskFormat.Sizes` | fs.h:24-48 | the constants agree with the macros and the header fits its block |
| `Log.HeadRoundTrip` | log.c:86-113 | the header block write_head makes reads back, through read_head, as the same block list |
| `Log.StageStep` | log.c:178-202 | each single disk write of commit moves the disk from one stage of the protocol to the next |
| `Log.StageRecovers` | log.c:69-122 | at every stage recovery yields all old contents before the header write and all new ones after it |
| `Log.RecoverStep` | log.c:69-122 | one write of recovery never changes what recovery will yield; the last one clears the header and leaves the home blocks installed |
| `Log.RebootsKeep` | log.c:115-122 | any number of recoveries, each cut after any write, leaves unchanged what the next one will yield |
| `Log.CrashAtomicity` | log.c:69-122 | commit cut after any write, then recovery cut any number of times at any write: the first recovery that completes leaves the home blocks all old or all new and the header count zero |
| `Log.RecoversToUnique` | log.c:69-122 | what a disk recovers to is unique on the home blocks |
| `Log.RedoExists` | log.c:69-122 | every recoverable disk recovers to some disk |
| `LogDevice.Device.LogWrite` | log.c:214-233 | a listed block is absorbed, another one appended, the buffer pinned; refused exactly when the list is full or no operation is open |
| `LogDevice.Device.WriteLog` | log.c:178-190 | its disk writes are the first part of a commit trace |
| `LogDevice.Device.FillHead` | log.c:107-110 | the word loop builds the header block for the list |
| `LogDevice.Device.WriteHead` | log.c:102-113 | one disk write, of that header block |
| `LogDevice.Device.InstallOne` | log.c:75-80 | one turn adds one write to the trace and unpins one block |
| `LogDevice.Device.InstallTrans` | log.c:69-82 | its disk writes continue the commit or recovery trace and leave no buffer dirty |
| `LogDevice.Device.Commit` | log.c:193-202 | performs exactly the writes of a complete commit trace, ends with an empty log and the home blocks holding what the cache showed |
| `LogDevice.Device.ReadHead` | log.c:86-96 | loads the list the header block encodes |
| `LogDevice.Device.RecoverFromLog` | log.c:116-122 | performs exactly the writes of a complete recovery trace |
| `LogMachine.ReservedStep` | log.c:126-163 | every step keeps list length plus the unused budgets of open operations within LOGSIZE |
| `LogMachine.Reservation` | log.c:126-163 | in every state of every run, for a log area of any size, the list plus the unused budgets of open operations is within LOGSIZE, so the index of log.c:228 is in bounds |
| `LogMachine.LogFits` | log.c:214-233 | in every state of every run the list is shorter than a log area that exceeds LOGSIZE |
| `LogMachine.ViewSame` | log.c:126-233 | no step but a modification, a crash or recovery changes the logical disk, evictions and commits included |
| `LogMachine.InvStep` | log.c:126-233 | every step of every process, eviction and crash keeps the invariant of the log layer |
| `LogMachine.AlwaysRecoverable` | log.c:115-122 | the disk is recoverable in every such state |
| `LogMachine.DurableStep` | log.c:193-202 | a step either keeps what the disk recovers to or makes it the logical disk of a moment with no open operation |
| `LogMachine.GroupCommit` | log.c:126-233 | at every moment of every run in which the list fits the disk recovers to what bread returned at some moment when the system was up with no operation open (or to what it described at the start), not before any moment at which end_op of the last open operation had returned |
| `LogMachine.LastEndCommits` | log.c:146-174 | in every state of every run, for a log area of any size, the list is empty whenever no operation is open and no commit is under way: the last end_op commits |
| `LogMachine.RestDurable` | log.c:146-202 | in such a state the disk recovers to exactly what bread returns |
| `LogMachine.RecoveryBringsUp` | log.c:116-122 | the last step of recovery leaves the recovered disk as the logical one and an empty list |
| `LogProgress.ModifyShows` | log.c:204-212 | changing a held block changes what bread returns for it, to what was written, and for no other block |
| `LogProgress.ReadShows` | bio.c:97-106 | a block nobody holds can be read at any time the system is up, with the contents it is credited with |
| `LogProgress.EvictKeeps` | bio.c:78-91 | a clean unheld buffer can be given up, and bread then returns the same |
| `LogProgress.PanicsIff` | log.c:218-221 | with a large enough log area log_write inside an operation panics exactly when the list is full, and then every open operation has used up its budget |
| `LogProgress.BeginReady` | log.c:126-141 | begin_op does not wait when no operation is open |
| `LogProgress.CommitFinishes` | log.c:193-202 | a commit nobody keeps from its buffers gets to its end and changes nothing bread returns |
| `LogProgress.EndReturns` | log.c:146-174 | end_op of the last open operation can return, and the disk then recovers to what bread returned before it |
| `LogProgress.BootReturns` | log.c:116-122 | recovery from any disk a crash leaves can finish, and bread then returns what the disk described |
| `LogOverrun.LogOverflow` | log.c:214-233 | in a log area of at most LOGSIZE blocks some run makes the list as long as the area, and the log slot of its last entry is a home block |
| `LogOverrun.LogFitsIff` | log.c:214-233 | the list stays inside its area in all runs if and only if the area exceeds LOGSIZE |
| `LogOverrun.GroupCommitFails` | log.c:178-190 | in such an area some run, cut before the header is written, has a disk that no moment explains |
| `LogOverrun.GroupCommitIff` | log.c:126-233 | every disk of every run is explained by a moment as group commit asks if and only if the area exceeds LOGSIZE |
| `BufRing.Push` | bio.c:49-55 | inserting behind the head keeps the ring doubly linked, in the expected order |
| `BufRing.Unlink` | bio.c:132-133 | removing a node keeps the rest linked in both directions, in the same order |
| `BufMachine.InvStep` | bio.c:62-141 | every step of every process keeps identities unique, counts exact, unlocked buffers equal to the last logged or written contents, and the list sorted by last release |
| `BufMachine.OneBufferPerBlock` | bio.c:62-93 | in every state of every run no two buffers stand for the same block of a device other than 0 |
| `BufMachine.KeyHeld` | bio.c:62-93 | from bget until its reference is dropped a process's buffer stands for the block it asked for |
| `BufMachine.RefKept` | bio.c:121-141 | a reference is given up only by the second half of brelse |
| `BufMachine.ViewIsLast` | bio.c:110-116 | the contents a block is credited with are those of the last log_write or bwrite in the run, or the initial disk |
| `BufMachine.CachedIsLatest` | bio.c:97-106 | when bread obtains the lock of a cached block, the buffer is that block's and holds what was last logged or written |
| `BufMachine.FilledIsLatest` | bio.c:97-106 | a block that has to be read from disk also arrives with its last logged or written contents |
| `BufferCache.Bcache.Binit` | bio.c:39-56 | all buffers on the ring, none in use |
| `BufferCache.Bcache.FindCached` | bio.c:69-76 | the scan finds a buffer of the block if there is one |
| `BufferCache.Bcache.FindOldest` | bio.c:81-91 | the backward scan finds the least recently released of the unreferenced clean buffers, and fails only if there is none |
| `BufferCache.Bcache.BgetRef` | bio.c:62-93 | a hit takes a reference, a miss recycles the oldest free buffer, panic exactly when the block is uncached and every buffer is in use |
| `BufferCache.Bcache.AcquireSleep` | bio.c:73-74 | is the locking step of the machine |
| `BufferCache.Bcache.Iderw` | memide.c:39-60 | writes a dirty buffer to disk, reads an invalid one, and panics exactly in the four cases listed, the first being that nobody holds the lock |
| `BufferCache.Bcache.ReadIn` | bio.c:102-104 | bread's second half is a step of the machine and leaves the buffer valid |
| `BufferCache.Bcache.Bwrite` | bio.c:110-116 | whoever calls it, is the write step of the process that holds the lock; panics exactly when nobody does or the block is not addressable |
| `BufferCache.Bcache.Pin` | log.c:231 | setting B_DIRTY is the log step of the machine |
| `BufferCache.Bcache.MoveToFront` | bio.c:132-137 | relinks one buffer to the front, the others in order |
| `BufferCache.Bcache.CountDown` | bio.c:128-140 | the count falls by one and, at zero, the buffer moves to the front |
| `BufferCache.Bcache.DropRef` | bio.c:128-140 | for a process that has a reference, is the step that drops it |
| `BufferCache.Bcache.Brelse` | bio.c:121-141 | panics exactly when nobody holds the lock; called by the holder it is the unlocking step followed by the dropping step; the invariant holds afterwards if and only if it panicked or the caller was the holder |
| `BufferCache.StolenRelease` | bio.c:121-141 | a process that releases a buffer another one holds leaves it unlocked and counted as free while the holder's reference is out |
| `FsLayout.NodeRoundTrip` | fs.c:222-237 | an inode written into its slot of a block reads back; the other slots are unchanged |
| `FsLayout.UpdateNodeAt` | fs.c:222-237 | iupdate changes one on-disk inode and no other |
| `FsLayout.BitsSet` | fs.c:57-96 | setting or clearing one bitmap bit changes the set of marked blocks by exactly that block |
| `FileMap.SlotsDisjoint` | fs.c:374-401 | no two slots of any inodes, direct, indirect or listed in an indirect block, name the same block |
| `FileMap.OwnershipExact` | fs.c:57-96 | the bitmap marks exactly the metadata blocks and the blocks some inode names, each named once |
| `FileMap.FreeSlot` | fs.c:409-436 | itrunc frees a marked block each time, so "freeing free block" is not reached |
| `FileMap.FreeDone` | fs.c:409-436 | after every slot is freed the bitmap and all other inodes are consistent again |
| `FileContent.OtherContent` | fs.c:483-512 | when an operation keeps the other inodes' blocks, every other file reads the same |
| `FileContent.ByteLocated` | fs.c:374-401 | byte o of a file is in the block named by entry o / 512 of addrs, or past the twelfth by a word of the block the last entry names |
| `FileContent.WriteStep` | fs.c:499-504 | one block's worth of writei extends the written prefix of the file and nothing else |
| `FileContent.StepGrows` | fs.c:499-510 | under the no-holes invariant an inode changes only when the write reaches past its size |
| `FileContent.WriteDone` | fs.c:483-512 | the finished loop is an overwrite-or-extend of the byte sequence |
| `FileContent.ChunkFits` | file.c:133-145 | no chunk of filewrite, at any offset, is charged more than MAXOPBLOCKS blocks |
| `FileContent.ChunkLargest` | file.c:127-133 | with one block more the bound on what a chunk logs exceeds MAXOPBLOCKS |
| `FileContent.ChargeStep` | fs.c:374-401 | each block written is charged to at most one data block, one bitmap block if new, one indirect block |
| `FileContent.SpliceSplice` | file.c:135-152 | writing two chunks in a row is writing their concatenation |
| `FileSpace.FreeCount` | fs.c:57-96 | clear bits, metadata blocks and owned blocks add up to the disk |
| `FileSpace.EnoughIff` | fs.c:483-512 | a write that fills slots until it has all of its range or the disk is full gets them all if and only if there were as many free blocks as empty slots |
| `FileSpace.WantedMore` | fs.c:499-501 | copying on to the end of a block needs no slots but those bmap looks at for that block |
| `FileSpace.ChunkAccepted` | file.c:135-152 | within the file, a chunk of filewrite ends within the first Accepted bytes if it stays below MAXFILE blocks, and otherwise begins where they end |
| `Fs.FileSystem.Balloc` | fs.c:57-78 | the lowest free block, marked and zeroed; fails exactly when the bitmap is full |
| `Fs.FileSystem.Bfree` | fs.c:82-96 | clears exactly that bit; panics exactly when it was clear |
| `Fs.FileSystem.BmapDirect` | fs.c:379-383 | the block of a direct slot, allocated and owned by it if it was 0 |
| `Fs.FileSystem.BmapIndirect` | fs.c:386-398 | the same through the indirect block, which is allocated first if needed |
| `Fs.FileSystem.Bmap` | fs.c:374-401 | the block that holds block bn of the file, with what was logged to allocate it; panics exactly past MAXFILE or when the disk is full; at most the slots it looks at are filled, one new block each; the block is the one addrs, or the indirect block, then names at bn |
| `Fs.FileSystem.Iupdate` | fs.c:222-237 | logs one block and makes the on-disk inode equal to the one in memory |
| `Fs.FileSystem.FreeDirect` | fs.c:415-420 | frees each direct block once |
| `Fs.FileSystem.FreeIndirect` | fs.c:422-432 | frees each listed block and the indirect block once |
| `Fs.FileSystem.Itrunc` | fs.c:409-436 | frees exactly this file's blocks, empties the inode on disk and in memory, keeps every other file and the ownership invariant, logs every block it changes |
| `Fs.FileSystem.WriteBlock` | fs.c:499-504 | one turn of writei's loop |
| `Fs.FileSystem.Writei` | fs.c:483-512 | the file becomes its old bytes with src at off, no other file changes, the on-disk inode stays equal to the one in memory, every changed block is logged and at most LogBound blocks are; -1 exactly for off past the end, overflow or a file too large; otherwise "out of blocks" exactly when fewer blocks are free than the range has empty slots, the indirect block included |
| `Fs.FileSystem.ReadBlock` | fs.c:470-475 | one turn of readi's loop yields the next bytes of the file, up to the end of a block, and changes nothing |
| `Fs.FileSystem.Readi` | fs.c:454-477 | returns exactly the slice clipped at the size, and changes nothing; -1 exactly for off past the end or overflow |
| `Fs.FileSystem.WriteChunk` | file.c:136-151 | one transaction logs every block it changes, at most MAXOPBLOCKS, and extends what has been written by one chunk |
| `Fs.FileSystem.Filewrite` | file.c:126-153 | the disk goes from old to new through one transaction per chunk, each logging every block it changes and at most MAXOPBLOCKS; the file holds exactly the accepted bytes at off, and the offset moves by as many; all of addr or -1 is returned; "out of blocks" exactly when fewer blocks are free than the accepted range has empty slots |
| `Malloc.FreedGood` | umalloc.c:25-44 | inserting and coalescing keeps the list one address-ordered ring without adjacent free blocks, disjoint from live blocks |
| `Malloc.TakenGood` | umalloc.c:75-82 | unlinking an exact fit keeps the heap good |
| `Malloc.SplitGood` | umalloc.c:75-82 | taking the tail of a larger block keeps the heap good |
| `Malloc.GrownGood` | umalloc.c:47-60 | a region from sbrk joins the heap as one live block |
| `Malloc.Conservation` | umalloc.c:25-90 | free units plus live units equal the units obtained from sbrk |
| `Allocator.PayloadFits` | umalloc.c:64-70 | the rounded size holds nbytes if and only if nbytes <= 2^32 - 8, then wastes less than one unit, and is otherwise the header alone |
| `Allocator.HugeRequest` | umalloc.c:64-70 | a request of 2^32 - 1 bytes is rounded to one unit, the header alone |
| `Allocator.SbrkExact` | umalloc.c:54 | the byte count passed to sbrk is eight times the units below 2^29 units and 0 at 2^29, the most a request asks for |
| `Allocator.GrowsIff` | umalloc.c:47-60 | as the int sbrk takes, that count is positive if and only if below 2^28 units |
| `Allocator.TooManyBytes` | umalloc.c:64-70 | the requests that make it zero or negative are those of 0x7ffffff1 to 2^32 - 8 bytes |
| `Allocator.NegativeRequest` | umalloc.c:64-70 | a request of 0x7ffffff8 bytes is 2^28 units and asks sbrk for -2^31 bytes |
| `Allocator.FindBetween` | umalloc.c:30-32 | somewhere on the ring the block being freed has its place, so free's search ends |
| `Allocator.FreedKept` | umalloc.c:25-44 | freeing one block moves and changes no other live block |
| `Allocator.StoreGood` | umalloc.c:9-21 | a program that writes inside its own block does not disturb the allocator |
| `Allocator.Arena.Search` | umalloc.c:30-32 | free's loop ends at the element after which the block belongs |
| `Allocator.Arena.Free` | umalloc.c:25-44 | returns exactly that block to the list; all other blocks keep place and contents |
| `Allocator.Arena.Morecore` | umalloc.c:47-60 | adds max(nu, 4096) new units; faults exactly from 2^28 units on, and otherwise returns null exactly when sbrk has too little left |
| `Allocator.Arena.Scan` | umalloc.c:74-88 | one round of the list finds a block that is large enough exactly when there is one, the first after freep |
| `Allocator.Arena.Carve` | umalloc.c:75-85 | the block handed out is new, the tail of the one found, and no live block moved |
| `Allocator.Arena.Malloc` | umalloc.c:64-90 | a block that holds nbytes and wastes less than one unit (the header alone above 2^32 - 8 bytes) and overlaps no live block; it faults, or returns null, exactly when no free block is large enough and the request is for 2^28 units or more, or sbrk has too little left |
| `Allocator.Arena.Store` | umalloc.c:9-21 | every heap property survives a program's own writes |
| `SleepLock.InvStep` | sleeplock.c:23-42 | every step of every process keeps the lock invariant |
| `SleepLock.MutualExclusion` | sleeplock.c:23-42 | in every state of every run at most one process holds the sleep lock |
| `SleepLock.NoLostWakeup` | proc.c:418-474 | with the inner spinlock free and locked zero, no process sleeps on the lock or is part-way there, spurious wakeups by kill included |
| `SleepLockOutcome.AcquireReturns` | sleeplock.c:23-32 | whatever step of a run takes a process out of acquiresleep leaves it the one owner, with locked set and pid naming it |
| `SleepLockOutcome.FreeIsHad` | sleeplock.c:23-32 | acquiresleep of a free lock can return with it and changes nothing else |
| `SleepLockOutcome.HeldIsSleptOn` | sleeplock.c:25-28 | acquiresleep of a held lock can go to sleep with both spinlocks released |
| `SleepLockOutcome.WokenHasIt` | sleeplock.c:26-31 | a woken process can go on and take the free lock |
| `SleepLockOutcome.ReleaseReturns` | sleeplock.c:35-42 | releasesleep can return, with the lock free and all its sleepers runnable |
| `SleepLockOutcome.KillWakes` | proc.c:480-497 | kill makes a sleeping target runnable |
| `ExitWait.TableStep` | proc.c:181-312 | every step of fork, exit, wait, kill and the scheduler keeps the table invariant |
| `ExitWait.ParentsAlive` | proc.c:228-267 | in every state of every run a parent pointer names a slot that is in use and not a zombie |
| `ExitWait.NoForgottenZombie` | proc.c:273-312 | whenever ptable.lock is free no process asleep in wait has a zombie child |
| `ExitWait.PidsConserved` | proc.c:273-312 | every pid given out is in exactly one place: a slot, one return of wait, or one failed fork |
| `ExitWait.WaitReaps` | proc.c:283-301 | wait returns only pids of zombies that are its caller's children |
| `WaitOutcome.WaitReturns` | proc.c:273-312 | whatever step of a run takes a process out of wait is its own, and either hands it the pid of a zombie child or finds it killed or childless |
| `WaitOutcome.ScanEnd` | proc.c:303-310 | at the end of its scan wait returns -1 exactly if the caller is killed or childless, and otherwise sleeps |
| `WaitOutcome.WaitSleeps` | proc.c:273-312 | in every state of every run a process asleep in wait has a child, is not killed and, with ptable.lock free, has no zombie child |
| `WaitOutcome.WaitFinds` | proc.c:279-300 | wait by a process with a zombie child can return the pid of the first one and free its slot, with nothing else changed |
| `WaitOutcome.WokenRescans` | proc.c:280-310 | a process woken from wait's sleep scans again from the start |
| `WaitOutcome.ExitEnds` | proc.c:250-265 | exit can get to its end: a zombie whose children are init's |
| `WaitOutcome.ForkMakes` | proc.c:181-222 | fork can return: a runnable child of the caller with the next pid, killed exactly if its slot was marked |
| `WaitOutcome.KillMarks` | proc.c:480-497 | kill marks the first slot with the pid, wakes it if it sleeps, and changes nothing else |
| `WaitOutcome.BornKilled` | proc.c:485-487 | a run in which kill(0) makes the next process start out killed |
| `Pipe.Tests` | pipe.c:85-106 | the tests on wrapping counters mean full and empty |
| `Pipe.SentOne` | pipe.c:93 | storing a byte keeps all bytes in flight in place |
| `Pipe.GotOne` | pipe.c:114-116 | the byte taken is the oldest not yet delivered |
| `Pipe.Buffer.WriteSome` | pipe.c:84-94 | what is accepted is a prefix of what was offered, stopping only at a full pipe |
| `Pipe.Buffer.ReadSome` | pipe.c:113-117 | what is delivered is exactly the next bytes accepted, in order |
| `PipeWakeup.InvStep` | pipe.c:60-121 | a step keeps the wakeup invariant if and only if it is not a killed writer giving up on a full pipe while a reader waits |
| `PipeWakeup.NoLostWakeup` | pipe.c:60-121 | in every run without such a step, with the pipe's lock free, a sleeping reader means empty with the write end open and a sleeping writer means full with the read end open |
| `PipeWakeup.StrandedReader` | pipe.c:84-93 | a run that ends with a full pipe, nobody inside, and a reader asleep |
| `PipeOutcome.OwnStep` | pipe.c:79-121 | pipewrite returns only with every byte in the pipe, or when it is full and the read end closed or the caller killed; piperead only with its bytes or an emptied pipe, or killed on an empty pipe with the write end open; each byte is counted once |
| `PipeOutcome.OtherStep` | pipe.c:79-121 | no other process's step moves a process in its call |
| `PipeOutcome.WriteEnds` | pipe.c:79-98 | pipewrite of bytes for which there is room can return, with all of them in the pipe and the sleeping readers runnable |
| `PipeOutcome.ReadEnds` | pipe.c:101-121 | piperead of a pipe that holds bytes or has no writer can return as many as were asked for and are there, with the sleeping writers runnable |
| `PipeOutcome.CloseEnds` | pipe.c:60-75 | pipeclose can return, with its end closed and the other end's sleepers runnable |
| `PipeOutcome.ReadSleeps` | pipe.c:106-111 | piperead of an empty pipe with a writer can wait |
| `PipeOutcome.WriteSleeps` | pipe.c:85-91 | pipewrite to a full pipe with a reader can wait, having woken the readers |
| `PipeOutcome.WokenRetries` | proc.c:442-451 | a woken process can go on at the test it slept after |
| `Kalloc.Kmem.Kalloc` | kalloc.c:83-95 | the most recently freed page, null exactly when none is free |
| `Kalloc.Kmem.Kfree` | kalloc.c:60-77 | a page that is not free joins the list; panics exactly outside the allocator's range |
| `Kalloc.DoubleFree` | kalloc.c:60-77 | after freeing a page that is already free the links form no list of distinct pages |
| `Kalloc.Kmem.FreeRange` | kalloc.c:47-53 | exactly the pages that lie whole between the two addresses are added; panics exactly if one is outside the allocator's range |
| `PageTable.SetLookup` | vm.c:36-57 | writing one entry changes the translation, with the permissions of both levels, of one virtual page |
| `PageTable.TableGood` | vm.c:43-54 | a new page table changes no translation and gives no page a second use |
| `PageTable.MapGood` | vm.c:66-78 | mapping an unused page keeps every page in exactly one use |
| `PageTable.ClearGood` | vm.c:267-277 | unmapping one user page frees its page and changes nothing else |
| `PageTable.ClearPagesGood` | vm.c:256-280 | clearing a range unmaps exactly it and conserves pages |
| `PageTable.SkipTable` | vm.c:268-269 | skipping the range of a missing table clears the same pages as going page by page |
| `Vm.AddressSpace.Walk` | vm.c:36-57 | the table of a page, made from a free page if asked; null exactly when absent and not made; no translation changes, and directory entries take no permission away from the table entries behind them |
| `Vm.AddressSpace.MapPages` | vm.c:61-80 | on success the whole range is mapped to consecutive pages, on failure a prefix of it; each missing table costs one free page, out of memory exactly at a missing table with none left; panics only at a mapped page |
| `Vm.AddressSpace.DeallocUvm` | vm.c:256-280 | terminates with exactly the page-by-page result, free list order included |
| `Vm.AddressSpace.AllocUvm` | vm.c:222-250 | succeeds, with writable user pages that were free, exactly when nothing in the range was mapped and the free pages cover the range and its missing tables; panics exactly when they last until a mapped page; otherwise unmaps the range; pages are conserved |
| `Vm.RollbackExact` | vm.c:235-247 | unmapping the range, as a failed allocuvm does, leaves the mapping as it was if and only if nothing in the range was mapped |
| `Vm.LosesIff` | vm.c:222-250 | a failed allocuvm loses a mapping if and only if the free pages do not last until the first mapped page of the range |
| `Vm.LostMapping` | vm.c:222-250 | an address space with no free page and page 1 mapped: growing from 0 to two pages returns 0 and page 1 is gone |
| `Vm.AddressSpace.FreeVm` | vm.c:284-298 | all pages of the address space go back to the free list, each once |
| `Vm.AddressSpace.NewDirectory` | vm.c:124-126 | a directory that translates nothing, out of one free page; fails exactly when there is none |
| `Vm.AddressSpace.MapRegion` | vm.c:129-134 | one turn of setupkvm's loop maps one region more, or fails with every page free again |
| `Vm.AddressSpace.SetupKvm` | vm.c:119-136 | the kernel's map, and nothing else; succeeds exactly with 65 or more free pages; on failure every page taken is free again |
| `Vm.PlanMeans` | vm.c:88-115 | the kmap table gives the documented kernel layout |
| `ShellGrammar.ParsedOk` | sh.c:328-446 | every word of a parsed tree is a maximal run of word characters and no command has MAXARGS arguments |
| `ShellPrint.PrintParse` | sh.c:328-446 | every tree of nonempty plain words with fewer than MAXARGS arguments, printed with parentheses where needed, parses back to itself |
| `ShellPrint.ParsePrint` | sh.c:328-446 | every accepted line has the tree of the text printed for that tree |
| `ShellLanguage.Language` | sh.c:328-446 | for every line and tree: the parser accepts the line with that tree if and only if a grammar over its words and symbols derives the tree |
| `ShellLexis.LexemesIff` | sh.c:262-308 | a line has given words and symbols if and only if it spells them, with blanks of the five kinds around them and some wherever two would run together |
| `ShellLexis.WordsAccepted` | sh.c:431-442 | a line of words only is accepted exactly if there are fewer than ten, as one command with those arguments |
| `ShellLanguage.Unambiguous` | sh.c:345-446 | the grammar gives a line at most one tree |
| `ShellLanguage.LineAmp` | sh.c:345-359 | in an accepted line only `&`, `;`, `)` or the end follows `&` |
| `ShellLanguage.NoBackgroundThenCommand` | sh.c:328-359 | `a & b` is rejected |
| `Shell.Peek` | sh.c:311-320 | the loop finds the first character that is not blank |
| `Shell.GetToken` | sh.c:266-308 | the three scanning loops compute the token at a position |
| `Shell.ParseRedirs` | sh.c:375-397 | the loop wraps the command in the redirections of the grammar, in order |
| `Shell.ParseSimple` | sh.c:423-446 | arguments stored behind redirections already made give the command of the grammar |
| `Shell.ParseBlock` | sh.c:400-412 | the block of the grammar or its error |
| `Shell.ParseExec` | sh.c:416-446 | the block or simple command of the grammar |
| `Shell.ParsePipe` | sh.c:362-372 | the pipeline of the grammar |
| `Shell.ParseLine` | sh.c:345-359 | the line of the grammar; the recursion ends |
| `Shell.ParseTree` | sh.c:328-342 | the whole line or the error, leftovers included |
| `Shell.NulTerminate` | sh.c:450-493 | writes a NUL at the end of each word of the tree and nowhere else |
| `Shell.WordsKept` | sh.c:450-493 | no word is cut by the NUL that ends another one |
| `Shell.ParseCmd` | sh.c:328-342 | on success every argument and file name reads back, as a C string, exactly its word |
| `Matcher.ShowParse` | grep.c:86-97 | reading a pattern loses nothing: its items spell the pattern |
| `Matcher.ParseShow` | grep.c:86-97 | every unambiguous list of items is the reading of its own text |
| `Matcher.MatchHere` | grep.c:86-97 | true exactly when a prefix of the text is in the language of the pattern, all of it for a final `$` |
| `Matcher.MatchStar` | grep.c:100-106 | true exactly when some number of fitting characters can be skipped |
| `Matcher.Match` | grep.c:73-83 | true exactly when some substring is in the language, at the start if the pattern begins with `^` |
| `Matcher.PlainSearch` | grep.c:73-97 | a pattern without `^`, `*` and `$` matches exactly if it stands somewhere in the text, with `.` for any character |

## Left out

- Directories, path lookup, the inode cache (iget, ilock, iput), ialloc and sysfile.c: composition of calls around the inode layer.
- Device inodes: `readi` and `writei` are modelled for files that are not of type T_DEV.
- Concurrency inside the file-system layer: its methods run one at a time over the logical disk; interleaving is the subject of LogMachine and BufMachine.
- LogMachine and LogDevice keep an unbounded cache; the NBUF limit and its panic are in BufferCache. LogDevice's Commit is one call, LogMachine's is one step per disk write, which waits only for the block it copies.
- LogMachine.InvStep: requires that the list fits the log area after the step; LogOverrun shows a run where it does not.
- LogMachine.GroupCommit: requires the same of the run up to that moment; GroupCommitIff says for which log areas every run meets it. The runs of LogOverrun need as many home blocks after the log as the log has blocks.
- BufMachine: a process that changed a buffer logs or writes it before releasing it, as the header comment of bio.c asks; the model has this as a condition of the unlocking step.
- Waiting inside acquiresleep is modelled in SleepLock; AcquireSleep in BufferCache is the step that succeeds.
- Counters that do not wrap in practice (`refcnt`, `nextpid`, `outstanding`) are unbounded.
- ExitWait: allocproc may take any unused slot; file descriptors, memory and the contents of channels other than a process are not modelled.
- PipeWakeup keeps the number of bytes in the pipe; which bytes they are is the subject of Pipe. An end is closed when the last file referring to it goes away, as fileclose does.
- umalloc.c: addresses are counted in 8-byte header units, sbrk hands out consecutive units up to a limit, and other callers of sbrk are not modelled.
- Vm: contents of user pages, page attribute bits other than PTE_P, PTE_W and PTE_U, copyuvm, loaduvm, inituvm and growproc; a new page's zeroing matters only for page tables, where it is modelled.
- Kalloc.Kmem.FreeRange: requires that no page of the range is free already, as in kinit1 and kinit2; DoubleFree is what happens otherwise.
- Vm.AddressSpace.DeallocUvm: requires oldsz <= KERNBASE, as all callers pass; above it the loop would reach the kernel's entries.
- Vm.AddressSpace.MapPages: requires a nonempty range that does not wrap and, for user pages, physical pages in nobody's use, as all callers pass.
- Shell: running commands, the prompt and `cd`; the parser's panics are results, not exits.
- Matcher: grep's reading of lines.
- Fairness: the modules on outcomes show that a call can get to its end, not that a scheduler lets it.
- Memory ordering: acquire and release are atomic steps.
- Hardware, boot code, traps, system-call dispatch, the console and exec.
