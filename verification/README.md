# xv6 in Dafny

A model of the xv6 kernel and of three of its user programs, and proofs about it. Paths below are those of the fourth lab's copy (`comp3300-lab4/xv6`); the other labs carry the same text for the files modelled. `dafny verify dfyconfig.toml` checks the whole project.

## What is modelled

**Write-ahead log** (`log.c`). `LogMachine` is a machine whose steps are the critical sections of `log.lock`, the guard that `log_write` reads before it takes that lock, and the single block writes of commit and recovery, with a crash allowed between any two. `LogSafety` and `LogOps` prove crash atomicity, all-or-nothing operations, the space bound and the absence of lost wakeups for every run. `Log` is the imperative code: each method moves the machine by named steps, so its object carries a run of the machine, and the theorems about runs apply to it.

**File system** (`fs.c`, `file.c`). `FsLayout` says who owns each block, with a ghost map from block numbers to inode slots; `FsAlloc`, `FsBytes` and `FsFree` prove what allocation, writing and truncation do to it and to the bytes of files; `Fs` is the code, on a disk of byte blocks with a bitmap, inode blocks and indirect blocks. A file is the sequence of its first `size` bytes; writing is overwrite-and-extend. `FsCrash` puts it on top of the log: what is recovered after a crash is a sound file system.

**Directories** (`sysfile.c`, `fs.c`). `DirTree` holds the invariant at system-call boundaries: link counts, unique names, one place for each directory, matching `..`, and a depth that `..` decreases, so linked directories form a tree under the root. `Dir` is the code of lookup, link, create, unlink and path walking; `DirBytes` and `DirCalls` are lookup, link, unlink and create once more, over the 16-byte records that `Fs` reads and writes, with the number of blocks each logs.

**Buffer cache** (`bio.c`). `Ring` is the doubly linked ring of buffer objects, `Bio` the cache: one buffer per block, agreement with an uncached disk, and recycling of the least recently released buffer.

**Memory** (`kalloc.c`, `vm.c`, `exec.c`). Physical memory is a sequence of frames of 1024 words. The free list runs through the frames themselves. Page directories and tables are frames, read as a flat map from page numbers to entries (32-bit paging, section 4.3 of volume 3A of the Intel manual). A ghost owner per frame makes frame accounting exact. `FrameCount` counts the frames that tables and pages take, so every call that can run out of memory does so exactly when too few are free. User access is decided by both levels of the tables (section 4.6 of that volume). `UserBytes` reads and writes user memory byte by byte through the page tables, `ArgStack` pushes the arguments that way, and `Exec` is the whole of exec over memory, from `setupkvm` to the release of the old directory.

**Processes** (`proc.c`, `sleeplock.c`, `pipe.c`). Each method is one stretch of code under the lock that guards it, from acquiring it or waking up to releasing it or going to sleep; the invariants hold between stretches, so in every interleaving of them.

**User programs** (`umalloc.c`, `sh.c`, `grep.c`). The circular free list of section 8.7 of Kernighan and Ritchie's *The C Programming Language*; the shell's parser, which accepts exactly what an unambiguous grammar derives (`ShGrammar`, `ShAccept`, `ShUnique`) and returns the derivation, with in-place string termination; the regular-expression matcher against a declarative language.

## How the model reads the source

- Disk blocks are written one at a time; `bread` returns the cache's view. In `Log`, `cur` is that view of the whole disk.
- Locks are atomic regions. A process that sleeps leaves its method; a woken process calls it again.
- A panic for want of a resource, and every other panic, is a result that stops the run (`ok` false, a null buffer, `Panic`, or -1 where said), unless a `requires` excludes it because the source demands it of callers.
- Page frames are named by number, the physical address divided by 4096; a page-table-entry pointer is the table's frame together with the page's index. Shell and exec pointers are positions.
- A C string is the sequence of its characters before the NUL.
- 32-bit arithmetic is written out where it matters: pipe counters, offset checks of `readi` and `writei`, the last row of `kmap`, page-table entries.
- The result of `sbrk` and which process runs next are parameters.

## What the proofs show about the source

- `mkfs` makes the log LOGSIZE blocks long, header included, while `begin_op` reserves up to LOGSIZE blocks. An operation within its budget can therefore reach the panic in `log_write`; `LogOps.SizePanicIff` gives the exact condition, log.size < LOGSIZE + 1. The same guard stands before the search for an already logged block, so with the log full even a repeated write of a logged block panics (`LogOps.RewritePanicReachable`), which operations of at most m new blocks can meet exactly when m is at least MAXOPBLOCKS (`LogOps.RewritePanicIff`).
- That guard is read before `log.lock` is taken, so two calls can pass it for the same free place. On a log of LOGSIZE + 1 blocks operations within their budgets always find room all the same (`LogOps.NoOverrun`). On a smaller one they can record one block more than the log holds: exactly when 2 <= log.size < LOGSIZE + 1 (`LogOps.OverrunIff`), which is so for the size `mkfs` chooses. `write_log` then stores on the block behind the log, a home block, and a crash leaves it changed (`LogOps.OverrunCorrupts`).
- A writer killed on a full pipe returns without waking readers, so a reader may stay asleep beside 512 bytes (`Pipe.KilledWriterForgetsReader`). It happens exactly when a killed writer with more than 512 bytes to go finds a reader asleep; otherwise nobody sleeps without cause (`Pipe.Pipe.Write`).
- All buffers start as block 0 of device 0, so a block is in at most one buffer only on other devices (`Bio.BlankTwice`); the kernel uses device 1.
- `kill` looks for the pid in every table entry, unused ones included, and `allocproc` does not clear the mark. `kill(0)` therefore marks an unused entry, and the next process made of it has been killed before it starts (`Proc.BornKilled`). An unused entry is marked exactly when the first entry with the pid is unused (`Proc.Kernel.Kill`).
- `create` and `link` do not ask whether the parent directory has been removed; the directory invariants hold afterwards exactly when it has not (`DirTree.EnterKeepsIff`, `DirTree.MakeKeepsIff`, `Dir.CreateInRemoved`).
- `uva2ka` looks at the entry `walkpgdir` found without asking whether it found one. In exec every page below the image's size has a page table, so this matters only for an argument string so long that the stack pointer wraps past the devices' pages (`ArgStack.PushStrings`, `Exec.Exec`).

## Model

| member | source | states |
|---|---|---|
| LogMachine.HeaderRoundTrip | comp3300-lab4/xv6/kernel/log.c:85-113 | read_head after write_head gives back exactly the list of logged block numbers, for every list that fits, whatever the header block held before |
| LogSafety.InstalledAt | comp3300-lab4/xv6/kernel/log.c:68-82 | after the first k blocks were copied home, each logged home block holds its log block and every other block is untouched |
| LogSafety.CommitPoint | comp3300-lab4/xv6/kernel/log.c:98-113 | the single store of the header block moves the disk from recovering to the state before the group to recovering to the state after it |
| LogSafety.InstallKeeps | comp3300-lab4/xv6/kernel/log.c:68-82 | copying a logged block home, for the first time or again after a crash, keeps what recovery yields |
| LogSafety.InvStep | comp3300-lab4/xv6/kernel/log.c:68-233 | every step of the log, including a crash between any two block writes, interrupted recovery, and the guard of log_write read apart from the recording that follows it, keeps the disk recoverable to exactly the committed groups and the cache equal to that plus the open group, up to a recording the log has no room for |
| LogSafety.CrashSafety | comp3300-lab4/xv6/kernel/log.c:68-233 | after any run from a bootable disk, followed up to a recording the log has no room for, recovery leaves the home blocks as the groups whose header was written, in order, and nothing else; the cache shows these plus the open group |
| LogSafety.CommitAtomic | comp3300-lab4/xv6/kernel/log.c:176-202 | a commit cut at any point, by any number of crashes, some in recovery, takes effect as a whole iff its header block was written, until a next operation begins |
| LogOps.OperationsAreAtomic | comp3300-lab4/xv6/kernel/log.c:124-233 | of all writes an operation ever issued, either none or all of them, in order, are in committed groups, and all in one group; an operation still open has none |
| LogOps.SpaceSafety | comp3300-lab4/xv6/kernel/log.c:124-174 | if every operation logs at most MAXOPBLOCKS new blocks, logged blocks plus unused reservations never exceed LOGSIZE and logged numbers stay distinct; on a log of LOGSIZE+1 blocks log_write's size guard fires only when every budget is spent |
| LogOps.NoOverrun | comp3300-lab4/xv6/kernel/log.c:213-233 | on a log of LOGSIZE+1 blocks or more, however many calls of log_write have passed the unlocked guard together, operations within their budgets never record a block for which the log has no room, so no run leaves what the theorems cover |
| LogOps.OverrunIff | comp3300-lab4/xv6/kernel/log.c:213-233 | operations within their budgets can record more blocks than the log holds if and only if 2 <= log.size < LOGSIZE + 1 |
| LogOps.TwoPastGuard | comp3300-lab4/xv6/kernel/log.c:213-233 | the run that does it: two operations pass the guard side by side when one block fits, and one records its block |
| LogOps.OverrunCorrupts | comp3300-lab4/xv6/kernel/log.c:176-190 | what comes of it: the last turn of write_log stores on the home block behind the log before any header is written, and after a crash recovery does not undo it |
| LogOps.SizePanicIff | comp3300-lab4/xv6/kernel/log.c:213-221 | an operation within its budget can hit log_write's size panic for a new block iff log.size < LOGSIZE + 1, which is the size mkfs.c:25 sets up |
| LogOps.RewritePanicReachable | comp3300-lab4/xv6/kernel/log.c:213-221 | with any larger log a run still exists in which writing an already logged block again panics, because the size guard precedes absorption |
| LogOps.RewritePanicIff | comp3300-lab4/xv6/kernel/log.c:213-229 | on a log of LOGSIZE+1 blocks or more, operations that log at most m new blocks each can meet that panic if and only if m >= MAXOPBLOCKS |
| LogOps.NoLostWakeup | comp3300-lab4/xv6/kernel/log.c:124-174 | whoever sleeps in begin_op waits for a commit under way or for an operation still open; never for an idle log with room |
| Log.Log.ReadHead | comp3300-lab4/xv6/kernel/log.c:85-96 | loads the header list into memory, as the machine's ReadHead step |
| Log.Log.StoreHead | comp3300-lab4/xv6/kernel/log.c:98-113 | the loop that fills the header buffer builds exactly the header block of the list |
| Log.Log.WriteLog | comp3300-lab4/xv6/kernel/log.c:176-190 | the loop copies each cached block to its log slot, one disk write per step, and ends with all of them there |
| Log.Log.InstallTrans | comp3300-lab4/xv6/kernel/log.c:68-82 | the loop copies each log block to its home block, one disk write per step |
| Log.Log.Commit | comp3300-lab4/xv6/kernel/log.c:192-202 | afterwards the home blocks on the disk are what the operations saw, the header lists nothing, and the group was committed iff it had blocks |
| Log.Log.RecoverFromLog | comp3300-lab4/xv6/kernel/log.c:115-122 | the disk becomes the recovered disk outside the log, the header is empty, and no group is added or lost |
| Log.Log.BeginOp | comp3300-lab4/xv6/kernel/log.c:124-141 | one turn of the loop: a reservation is taken iff no commit is under way and MAXOPBLOCKS more blocks fit for every open operation; otherwise the caller sleeps |
| Log.Log.EndOp | comp3300-lab4/xv6/kernel/log.c:143-174 | the last operation out commits for all; an earlier one leaves disk and log alone; sleepers are woken either way |
| Log.Log.Absorb | comp3300-lab4/xv6/kernel/log.c:222-229 | a block already logged keeps its slot, a new one takes the next |
| Log.Log.Guard | comp3300-lab4/xv6/kernel/log.c:218-221 | passes iff the log is not full, log.size allows one more and an operation is open; read before the lock is taken |
| Log.Log.Record | comp3300-lab4/xv6/kernel/log.c:223-232 | under the lock, and without looking at the size again: the cache holds the data and the list gained the block at most once |
| Log.Log.LogWriteBlock | comp3300-lab4/xv6/kernel/log.c:213-233 | without interruption, succeeds iff the log is not full, log.size allows it and an operation is open; then the cache holds the data and the list gained the block at most once |
| Log.CommittedView | comp3300-lab4/xv6/kernel/log.c:192-202 | across a whole commit the disk catches up with the cache |
| Blocks.GetPut | comp3300-lab4/xv6/kernel/log.c:85-113 | consecutive words stored in a block read back, and others are undisturbed |
| Blocks.PutBitAt | comp3300-lab4/xv6/kernel/fs.c:56-95 | setting or clearing one bit of a bitmap block changes that bit alone |
| FsLayout.EncodeDecode | comp3300-lab4/xv6/kernel/fs.c:216-236 | storing an inode in its block reads back as that inode, and the block's other inodes are unchanged |
| FsLayout.SlotsDistinct | comp3300-lab4/xv6/kernel/fs.c:372-400 | no block number occurs in two slots of any inode or indirect block |
| FsLayout.InUseIffOwned | comp3300-lab4/xv6/kernel/fs.c:56-95 | a data-area block is marked in use iff some slot of some inode holds it |
| FsLayout.Take | comp3300-lab4/xv6/kernel/fs.c:56-78 | a block balloc marks and zeroes is a data block owned by nobody, and ownership of all others stands |
| FsLayout.GiveBack | comp3300-lab4/xv6/kernel/fs.c:81-95 | bfree of a block in no slot finds it marked, so never panics, and keeps ownership of all others |
| FsLayout.EntryStored | comp3300-lab4/xv6/kernel/fs.c:385-396 | storing one indirect entry changes that slot and no other slot or bitmap bit |
| FsAlloc.GrowInode | comp3300-lab4/xv6/kernel/fs.c:372-384 | a fresh block put in an empty address keeps ownership and every file's bytes |
| FsAlloc.GrowEntry | comp3300-lab4/xv6/kernel/fs.c:385-396 | a fresh block put in an empty indirect entry keeps ownership and every file's bytes |
| FsBytes.OverwriteAt | comp3300-lab4/xv6/kernel/fs.c:481-511 | the overwrite-and-extend specification, position by position |
| FsBytes.PatchedBytes | comp3300-lab4/xv6/kernel/fs.c:481-511 | patching one mapped block changes exactly those bytes of that file and no byte of another |
| FsBytes.WrittenContent | comp3300-lab4/xv6/kernel/fs.c:481-511 | when all bytes are stored the file's content is the old content overwritten and extended |
| FsBytes.ReadAfterWrite | comp3300-lab4/xv6/kernel/fs.c:452-511 | a slice read at the place written is what was written, and every slice outside it is as before |
| FsBytes.TenBlocks | comp3300-lab4/xv6/kernel/file.c:127-141 | with the inode, the blocks a chunk of at most 1536 bytes logs number at most ten at any offset |
| FsBytes.CostBound | comp3300-lab4/xv6/kernel/fs.c:481-511 | what writei logs apart from the inode: at most each block it touches, a bitmap block for each that may be new, and past the direct blocks the indirect block and a bitmap block for it; a block written from its middle on is not new |
| FsBytes.StepDone | comp3300-lab4/xv6/kernel/fs.c:494-500 | one turn of writei: bytes, ownership and that count are kept |
| FsFree.Truncated | comp3300-lab4/xv6/kernel/fs.c:407-435 | once every slot is dropped the inode is empty, ownership covers exactly the other files, and their bytes are unchanged |
| FsFree.OverwriteTwice | comp3300-lab4/xv6/kernel/file.c:117-156 | consecutive chunks overwrite as one |
| Fs.Fs.Balloc | comp3300-lab4/xv6/kernel/fs.c:56-78 | returns the lowest free block, marked and zeroed, with exactly two blocks logged, the only ones changed; fails only if all are in use |
| Fs.Fs.Bfree | comp3300-lab4/xv6/kernel/fs.c:81-95 | clears the block's bit and nothing else, logging the bitmap block; panics iff it was clear |
| Fs.Fs.Bmap | comp3300-lab4/xv6/kernel/fs.c:372-400 | yields the block of the file at that index, allocating data and indirect blocks where missing, keeping ownership, every byte and every mapped block; logs every block it changes; a mapped block never fails, and any fails only beyond the maximum or when no block is free |
| Fs.Fs.Writei | comp3300-lab4/xv6/kernel/fs.c:481-511 | overwrite-and-extend on the file's bytes, all other files unchanged, -1 exactly beyond the size or the maximum; every block changed is logged, and no more than the bound; it panics only when no block is free, and never when every block it touches is mapped already |
| Fs.Fs.Readi | comp3300-lab4/xv6/kernel/fs.c:452-476 | the matching slice of the file's bytes, -1 exactly past the end or on wrap-around, and nothing changes |
| Fs.Fs.Itrunc | comp3300-lab4/xv6/kernel/fs.c:407-435 | never reaches the freeing-free-block panic, frees every block the file had, and leaves other files alone; logs every block it changes, at most the bitmap and the inode |
| Fs.Fs.Iput | comp3300-lab4/xv6/kernel/fs.c:332-352 | frees the inode and its blocks iff it is the last reference to an inode without links; otherwise changes nothing; logs every block it changes, at most size / BITS + 2 |
| Fs.Fs.Filewrite | comp3300-lab4/xv6/kernel/file.c:117-156 | the chunks add up to one overwrite of the file up to the returned offset; every transaction takes one sound file system to another, logs every block it changes and at most MAXOPBLOCKS; -1 means exactly that the next chunk would pass the maximum file size or the offset the end, and a panic that no block is free |
| Fs.Fs.constructor | comp3300-lab4/xv6/fs/mkfs.c:245-258 | the disk mkfs starts from, superblock and first inodes aside, satisfies the invariants: metadata marked, everything else free |
| Fs.Fs.Restamp | comp3300-lab4/xv6/kernel/fs.c:216-236 | a change of type or link count keeps every file's bytes, and logs the inode's block |
| Fs.Fs.Ialloc | comp3300-lab4/xv6/kernel/fs.c:190-214 | the first free inode, blank but for its type, or the panic when there is none |
| FsCrash.SameHomeCarries | comp3300-lab4/xv6/kernel/log.c:68-122 | the file system on a disk, inodes, ownership and bytes, does not depend on the log area |
| FsCrash.CrashesKeepFiles | comp3300-lab4/xv6/kernel/log.c:68-202 | if each committed group takes a sound file system to a sound one, then after any run and any crashes the recovered disk carries a sound file system, with exactly the inodes and bytes the committed groups made |
| FsCrash.TransactionGroups | comp3300-lab4/xv6/kernel/file.c:127-148 | the transactions of filewrite, each logged as a group, are groups that keep file systems, and write only blocks they logged |
| FsCrash.TransactionsSurvive | comp3300-lab4/xv6/kernel/log.c:68-233 | whatever crashes a run of them meets, the recovered disk holds the files as they were after the last transaction committed |
| Ring.Unlink | comp3300-lab4/xv6/kernel/bio.c:132-133 | taking a buffer out leaves a well-formed doubly linked ring of the others |
| Ring.PushFront | comp3300-lab4/xv6/kernel/bio.c:134-137 | putting a buffer behind the head leaves a well-formed ring with it first |
| Bio.GotKeeps | comp3300-lab4/xv6/kernel/bio.c:60-93 | bget keeps the cache coherent: no block of a real device in two buffers, every stale disk block cached, order of last release |
| Bio.GotCovered | comp3300-lab4/xv6/kernel/bio.c:81-90 | the buffer recycled holds nothing the disk lacks |
| Bio.HeldKeeps | comp3300-lab4/xv6/kernel/bio.c:95-116 | what the holder of one buffer does concerns that buffer, its disk block and its current contents only |
| Bio.Uncached | comp3300-lab4/xv6/kernel/bio.c:95-106 | a block whose buffer is not valid is up to date on the disk |
| Bio.ReleasedKeeps | comp3300-lab4/xv6/kernel/bio.c:120-141 | brelse keeps coherence, and the ring stays ordered by last release to zero |
| Bio.Cache.constructor | comp3300-lab4/xv6/kernel/bio.c:38-56 | binit links all NBUF buffers into the ring, each as block 0 of device 0, and starts coherent with the disk |
| Bio.BlankTwice | comp3300-lab4/xv6/kernel/bio.c:38-56 | so at boot two buffers are the same block, and uniqueness holds for nonzero devices only |
| Bio.Cache.Bget | comp3300-lab4/xv6/kernel/bio.c:60-93 | the buffer holding the block, else the least recently released one without references or unsaved changes, else the panic; every other buffer is untouched |
| Bio.Cache.Iderw | comp3300-lab4/xv6/kernel/bio.c:95-116 | a dirty buffer reaches the disk, an invalid one is filled with what an uncached disk would give |
| Bio.Cache.Bread | comp3300-lab4/xv6/kernel/bio.c:95-106 | the holder sees what a disk without a cache would give |
| Bio.Cache.Bwrite | comp3300-lab4/xv6/kernel/bio.c:108-116 | the block on the disk becomes the buffer's data, and the buffer is clean |
| Bio.Cache.Pin | comp3300-lab4/xv6/kernel/log.c:213-233 | log_write's mark keeps the buffer from being recycled until it is written |
| Bio.Cache.Brelse | comp3300-lab4/xv6/kernel/bio.c:120-141 | one reference less; at zero the buffer becomes the most recently released, the others keep their order |
| Kalloc.Kmem.Kfree | comp3300-lab4/xv6/kernel/kalloc.c:59-79 | the frame goes on the list held in the pages themselves, and no other frame changes |
| Kalloc.Kmem.Kalloc | comp3300-lab4/xv6/kernel/kalloc.c:84-97 | takes the first free frame, fails iff there is none |
| Kalloc.Kmem.Freerange | comp3300-lab4/xv6/kernel/kalloc.c:48-55 | exactly the whole pages of the range become free |
| PageMap.ScratchKeeps | comp3300-lab4/xv6/kernel/kalloc.c:59-97 | frames passing between the free list and the kernel affect no page table |
| PageMap.NewTable | comp3300-lab4/xv6/kernel/vm.c:38-58 | a zeroed frame entered in a directory becomes a table and no directory maps anything else for it |
| PageMap.SetLook | comp3300-lab4/xv6/kernel/vm.c:60-81 | storing one table entry changes the flat map of one directory at one page |
| PageMap.AddUser | comp3300-lab4/xv6/kernel/vm.c:60-81 | a user entry on a held frame makes that frame back exactly that page |
| PageMap.DropUser | comp3300-lab4/xv6/kernel/vm.c:257-281 | clearing a user entry releases exactly the frame that backed the page |
| PageMap.EntryOnce | comp3300-lab4/xv6/kernel/vm.c:60-81 | no frame backs two user pages |
| PageMap.Entry | comp3300-lab4/xv6/include/mmu.h:94-101 | an entry built from a frame and permissions is present and gives both back |
| PageMap.Undo | comp3300-lab4/xv6/kernel/vm.c:283-301 | a directory without user pages can be given up with its tables and the rest stays sound |
| Vm.Walkpgdir | comp3300-lab4/xv6/kernel/vm.c:36-58 | finds the table of a page or makes one, whose directory entry lets the user read and write, changing no map and no page in use; fails iff it is missing and, when asked to make it, no frame is free; takes one frame iff it makes one |
| Vm.Mappages | comp3300-lab4/xv6/kernel/vm.c:60-81 | maps all the pages to consecutive frames iff the free frames suffice for the page tables they lack, taking exactly those; else a prefix of them |
| Vm.Deallocuvm | comp3300-lab4/xv6/kernel/vm.c:257-281 | removes exactly the present pages a page-by-page loop would, frees exactly their frames, and terminates, although it strides over missing tables |
| Vm.Freevm | comp3300-lab4/xv6/kernel/vm.c:283-301 | frees exactly the directory, its tables and its user frames; other directories map what they did |
| Vm.FreedAll | comp3300-lab4/xv6/kernel/vm.c:283-301 | giving up a directory that did not exist before gives back exactly what was taken |
| Vm.Setupkvm | comp3300-lab4/xv6/kernel/vm.c:119-137 | a directory with exactly the kernel's map and no user table, or every frame, map and page as before; fails iff fewer than 65 frames are free, and takes 65 |
| FrameCount.LacksSplit | comp3300-lab4/xv6/kernel/vm.c:36-81 | the page tables a stretch of pages lacks are those of its first part and those the rest then still lacks, however the parts share a table |
| FrameCount.PaidMore | comp3300-lab4/xv6/kernel/vm.c:223-251 | from an address space of p pages to one of q takes exactly the frames that distinguish their totals, or they were too few for q |
| UserSpace.Allocuvm | comp3300-lab4/xv6/kernel/vm.c:223-251 | adds zeroed, writable user pages on free frames for exactly the new pages, or restores every map and page, only page tables remaining; fails iff the free frames are fewer than the pages and the page tables they lack, and takes exactly those |
| UserSpace.TakeBack | comp3300-lab4/xv6/kernel/vm.c:236-248 | both ways out of allocuvm: the pages added go, then the frame that could not be mapped |
| UserSpace.Copyuvm | comp3300-lab4/xv6/kernel/vm.c:320-350 | copies every page with its flags and bytes to frames that were free, or restores everything exactly; fails iff the free frames are fewer than setupkvm's 65, the pages, and a table for every 1024 of them |
| UserSpace.ForkCopy | comp3300-lab4/xv6/kernel/vm.c:320-350 | the child has the same user pages, flags and bytes and the same kernel map as the parent, and shares no user frame with it |
| UserSpace.EntryDecides | comp3300-lab4/xv6/kernel/vm.c:49-57 | the processor, asking both levels of the tables, lets the user read or write a page exactly when the table's entry does |
| UserSpace.ForkedAccess | comp3300-lab4/xv6/kernel/vm.c:320-350 | the user may read and write the child's pages exactly as the parent's |
| UserSpace.RaisedAccess | comp3300-lab4/xv6/kernel/vm.c:223-251 | the user may read and write every page added |
| UserSpace.FreeSetRestored | comp3300-lab4/xv6/kernel/kalloc.c:59-97 | when ownership is restored the set and number of free frames are too |
| UserSpace.ExecGrows | comp3300-lab4/xv6/kernel/exec.c:38-68 | each allocuvm on exec's new directory, done or failed, touches nothing of the other processes |
| UserSpace.ExecFails | comp3300-lab4/xv6/kernel/exec.c:106-113 | freevm of a directory that did not exist before restores every frame, map and page |
| UserSpace.Clearpteu | comp3300-lab4/xv6/kernel/vm.c:303-314 | the page stays mapped to its frame, no longer the user's; no other entry changes |
| UserBytes.StorePage | comp3300-lab4/xv6/kernel/vm.c:369-392 | a store into the frame behind a user page changes exactly those bytes of that address space and no map |
| UserBytes.Uva2ka | comp3300-lab4/xv6/kernel/vm.c:353-366 | finds the frame of a page through the page tables iff its entry is present and the user's; reads through a null pointer iff there is no table |
| UserBytes.Copyout | comp3300-lab4/xv6/kernel/vm.c:371-392 | stores the bytes through the page tables iff every page of the range is the user's, or else a prefix of them; no other byte, map or frame changes; it goes astray exactly when the first page that is not the user's has no table |
| UserBytes.Loaduvm | comp3300-lab4/xv6/kernel/vm.c:197-219 | puts a segment's bytes at their addresses through the page tables; -1 iff the file is too short |
| ArgStack.PushFits | comp3300-lab4/xv6/kernel/exec.c:71-88 | from within the stack page, a push reaches the guard page exactly when it leaves the stack page, however long it is |
| ArgStack.PushStrings | comp3300-lab4/xv6/kernel/exec.c:71-79 | with a 32-bit stack pointer, pushes all strings, each intact at its pointer, iff there are at most MAXARG and they fit in the page; it goes astray exactly when one wraps to an address without a page table |
| ArgStack.PushArgs | comp3300-lab4/xv6/kernel/exec.c:71-88 | through the page tables, succeeds iff there are at most MAXARG strings and strings plus vector fit in the stack page; then main's stack holds argc, argv and the strings, and no byte outside the stack page has changed |
| ArgStack.Decoded | comp3300-lab4/xv6/kernel/exec.c:71-88 | decoding memory from the final stack pointer gives back exactly the strings |
| ArgStack.FlatAt | comp3300-lab4/xv6/kernel/exec.c:86-88 | the vector's words survive the trip through bytes |
| Exec.StoreHalf | comp3300-lab4/xv6/kernel/exec.c:56-87 | loaduvm and copyout into the new directory touch nothing that was there before |
| Exec.ClearKeepsHalf | comp3300-lab4/xv6/kernel/exec.c:68 | nor does clearpteu |
| Exec.LoadSeg | comp3300-lab4/xv6/kernel/exec.c:40-58 | a segment is in place, later ones over earlier ones, iff it is well formed and the frames free at exec's start cover the image up to it; on failure only the new directory is affected |
| Exec.LayoutImage | comp3300-lab4/xv6/kernel/exec.c:63-68 | two more pages from allocuvm, the lower one cleared, make the image the argument stack needs: a user page over a page out of the user's reach |
| Exec.Arguments | comp3300-lab4/xv6/kernel/exec.c:68-88 | guard page and arguments: succeeds iff they fit |
| Exec.Commits | comp3300-lab4/xv6/kernel/exec.c:95-103 | freeing the old directory leaves every frame, map and page of everybody else as before the call |
| Exec.Exec | comp3300-lab4/xv6/kernel/exec.c:10-114 | succeeds iff the file and the segments are well formed, the image stays below KERNBASE, the arguments fit in the stack page, and as many frames are free as the new directory, its tables and pages take; on every failure every frame, map and page is as before; on success the new directory replaces the old one and holds the kernel, the segments' bytes, zeros elsewhere, and the argument stack, and the user may read and write exactly the pages below its size but the guard page; it goes astray only when a string reaches further below address zero than the devices' pages reach from the top |
| FreeList.InsertSorted | comp3300-lab4/xv6/user/umalloc.c:24-44 | free keeps the list in address order with nothing left to coalesce |
| FreeList.InsertDisjoint | comp3300-lab4/xv6/user/umalloc.c:24-44 | coalesced blocks stay apart from every live block |
| FreeList.Inserted | comp3300-lab4/xv6/user/umalloc.c:24-44 | free turns one live block into free space: order, disjointness and the number of units are kept |
| FreeList.TakeSorted | comp3300-lab4/xv6/user/umalloc.c:74-85 | cutting a block off the tail, or taking it whole, keeps the list sorted and coalesced |
| FreeList.TakeDisjoint | comp3300-lab4/xv6/user/umalloc.c:74-85 | the block handed out overlaps neither the free list nor any live block |
| FreeList.TakeUnits | comp3300-lab4/xv6/user/umalloc.c:74-85 | the units handed out are exactly those the list loses |
| FreeList.FreeUndoesMalloc | comp3300-lab4/xv6/user/umalloc.c:24-90 | freeing a block straight after taking it restores the very same list |
| Umalloc.Freed | comp3300-lab4/xv6/user/umalloc.c:33-42 | the pointer and size stores of free link exactly the coalesced list, closed into a ring |
| Umalloc.TakenLinked | comp3300-lab4/xv6/user/umalloc.c:75-83 | the stores of malloc link exactly the list without the block taken |
| Umalloc.Heap.Find | comp3300-lab4/xv6/user/umalloc.c:29-32 | the search round the ring from any freep terminates at the block the address belongs after |
| Umalloc.Heap.Free | comp3300-lab4/xv6/user/umalloc.c:24-44 | the live block joins the free list at its address; units are conserved and freep stays on the ring |
| Umalloc.Heap.Morecore | comp3300-lab4/xv6/user/umalloc.c:46-61 | what sbrk grants becomes free at the top of the heap, at or right after freep, or nothing changes |
| Umalloc.Heap.Malloc | comp3300-lab4/xv6/user/umalloc.c:63-90 | terminates, calls morecore at most once and only if no block fits, returns 0 iff that fails, and otherwise a new live block with room for the bytes, disjoint from all others |
| Umalloc.Need | comp3300-lab4/xv6/user/umalloc.c:69 | the units of a request hold its bytes and the header, and are no more than needed |
| Proc.CalmKeeps | comp3300-lab4/xv6/kernel/proc.c:565-605 | waking, killing and scheduling keep the family, wait, pid and lock invariants |
| Proc.ExitKeeps | comp3300-lab4/xv6/kernel/proc.c:290-306 | exit leaves no child behind, no dead parent, and nobody asleep in wait beside an exited child, init included |
| Proc.ReapKeeps | comp3300-lab4/xv6/kernel/proc.c:327-340 | reaping an exited child leaves every other sleeper in wait with a child, and the pid was never reaped before |
| Proc.SleepKeeps | comp3300-lab4/xv6/kernel/proc.c:343-350 | a process goes to sleep in wait only with a child and no exited one |
| Proc.BornKeeps | comp3300-lab4/xv6/kernel/proc.c:107-262 | allocproc, fork and their failure paths keep the invariants; new pids are fresh |
| Proc.Kernel.Wakeup | comp3300-lab4/xv6/kernel/proc.c:562-582 | exactly the sleepers on the channel run |
| Proc.Kernel.Kill | comp3300-lab4/xv6/kernel/proc.c:584-605 | marks and wakes the first entry with the pid, -1 iff there is none; it marks an unused entry exactly when that first entry is unused |
| Proc.BornKilled | comp3300-lab4/xv6/kernel/proc.c:107-129 | a concrete run: kill(0) marks an unused entry, and the process allocproc makes of it is killed before it starts |
| Proc.Kernel.Allocproc | comp3300-lab4/xv6/kernel/proc.c:107-129 | the first unused entry becomes an embryo with a new pid, or there is none |
| Proc.Kernel.Adopt | comp3300-lab4/xv6/kernel/proc.c:237 | the embryo becomes the caller's child while its parent is alive |
| Proc.Kernel.Exit | comp3300-lab4/xv6/kernel/proc.c:290-306 | the whole new table: parent woken, children given to init, init woken iff one of them had exited, the caller a zombie |
| Proc.Kernel.Wait | comp3300-lab4/xv6/kernel/proc.c:312-352 | reaps the first exited child iff there is one, each pid at most once ever; otherwise gives up without children or when killed, else sleeps |
| Proc.Kernel.Sleep | comp3300-lab4/xv6/kernel/proc.c:525-560 | the caller sleeps on the channel and the invariants hold |
| Proc.Kernel.Acquiresleep | comp3300-lab4/xv6/kernel/sleeplock.c:22-32 | takes the lock iff it was free; otherwise the caller sleeps facing a held lock |
| Proc.Kernel.Releasesleep | comp3300-lab4/xv6/kernel/sleeplock.c:34-42 | the lock is free and nobody is left asleep on it |
| Proc.Kernel.Holdingsleep | comp3300-lab4/xv6/kernel/sleeplock.c:44-53 | whether the lock is held in the caller's pid |
| Pipe.WrapIndex | comp3300-lab4/xv6/kernel/pipe.c:93-116 | ring indices do not notice the 32-bit counters wrapping, because 512 divides 2^32 |
| Pipe.WrapCompare | comp3300-lab4/xv6/kernel/pipe.c:85-114 | wrapped counters compare equal, or full, exactly when the unbounded counts do |
| Pipe.Pipe.Write | comp3300-lab4/xv6/kernel/pipe.c:77-98 | stores the next bytes in order until done, full and asleep with readers awake, or failed; got stays a prefix of stored, occupancy at most 512; if nobody slept without cause before, somebody does after exactly when the writer was killed, a reader slept and more than 512 bytes were to go |
| Pipe.Pipe.Read | comp3300-lab4/xv6/kernel/pipe.c:100-121 | hands out the next stored bytes, as many as asked and there, sleeps only on an empty pipe whose write end is open, and wakes writers; a killed reader gives up and sleeps no more |
| Pipe.Pipe.Close | comp3300-lab4/xv6/kernel/pipe.c:59-75 | closes one end and wakes the other side, keeping the invariants; the pipe is freed iff both ends are closed |
| Pipe.KilledWriterForgetsReader | comp3300-lab4/xv6/kernel/pipe.c:85-89 | a concrete run: a killed writer that filled the pipe leaves a reader asleep beside 512 bytes |
| DirTree.EnterKeeps | comp3300-lab4/xv6/kernel/sysfile.c:121-168 | one more name for a file keeps link counts, unique names, places and depth of all directories |
| DirTree.EnterKeepsIff | comp3300-lab4/xv6/kernel/sysfile.c:121-168 | a file's name entered into a directory keeps the invariants, at any depths, if and only if that directory has not been removed |
| DirTree.MakeKeeps | comp3300-lab4/xv6/kernel/sysfile.c:244-286 | a new directory with its dots keeps them, and hangs below its parent |
| DirTree.MakeKeepsIff | comp3300-lab4/xv6/kernel/sysfile.c:244-286 | and so does a new directory made in it |
| DirTree.EmptyOnce | comp3300-lab4/xv6/kernel/sysfile.c:170-184 | a directory empty behind its dots is named by one entry only, and by no directory's ".." |
| DirTree.UnlinkTarget | comp3300-lab4/xv6/kernel/sysfile.c:210-219 | the entry to go names an allocated inode with a link, never its own directory or the root, and a directory's ".." names where it is unlinked from |
| DirTree.UnlinkFileKeeps | comp3300-lab4/xv6/kernel/sysfile.c:186-242 | unlinking a file keeps the directory invariants |
| DirTree.UnlinkDirKeeps | comp3300-lab4/xv6/kernel/sysfile.c:186-242 | unlinking an empty directory keeps them: its count reaches zero and its ".." stops counting |
| DirTree.FreeUnnamed | comp3300-lab4/xv6/kernel/fs.c:332-352 | no entry of a linked directory names an inode without links, so freeing it leaves nothing dangling |
| DirTree.FreeKeeps | comp3300-lab4/xv6/kernel/fs.c:332-352 | freeing an inode without links keeps the directory invariants |
| Dir.Inodes.constructor | comp3300-lab4/xv6/fs/mkfs.c:117-128 | the root alone, its dots naming itself, satisfies the directory invariants |
| Dir.Inodes.Dirlookup | comp3300-lab4/xv6/kernel/fs.c:522-548 | the first entry in use with that name, 0 iff there is none |
| Dir.Inodes.Dirlink | comp3300-lab4/xv6/kernel/fs.c:550-578 | -1 and nothing if the name is taken, else the entry in the first free slot or at the end |
| DirBytes.EntryWritten | comp3300-lab4/xv6/kernel/fs.c:568-575 | writing the sixteen bytes of an entry into a directory's content, in a slot or at the end, puts that entry and no other |
| DirBytes.EntryCleared | comp3300-lab4/xv6/kernel/sysfile.c:221-224 | writing sixteen zeros empties the entry |
| DirBytes.Dirlookup | comp3300-lab4/xv6/kernel/fs.c:522-548 | over the bytes readi returns: finds the first entry in use with the name, and panics iff it is not there and the last entry is not whole |
| DirBytes.Dirlink | comp3300-lab4/xv6/kernel/fs.c:550-578 | over readi and writei on disk blocks, does to the entries of the directory, and to nothing else, what Dir.Inodes.Dirlink does; panics only when the name is new and the last entry is not whole, the directory has no room left, or no block is free |
| DirCalls.Link | comp3300-lab4/xv6/kernel/sysfile.c:121-168 | on disk blocks, does what Dir.Inodes.Link does, logging every block it changes and at most six; panics only when the name is new and the last entry is not whole, the directory has no room left, or no block is free |
| DirCalls.Unlink | comp3300-lab4/xv6/kernel/sysfile.c:186-242 | on disk blocks, does what Dir.Inodes.Unlink does, logging every block it changes and at most six; no panic while directory sizes are whole numbers of entries |
| DirCalls.Put | comp3300-lab4/xv6/kernel/fs.c:332-352 | on disk blocks, the last reference to an inode without links frees its node, logging at most size / BITS + 2 blocks |
| DirCalls.Create | comp3300-lab4/xv6/kernel/sysfile.c:244-286 | on disk blocks, does what Dir.Inodes.Create does, logging every block it changes and at most nine; panics only as DirCalls.Link does |
| Dir.Inodes.Create | comp3300-lab4/xv6/kernel/sysfile.c:244-286 | when the name is taken, the inode of its first entry if a file was asked for and it is one, else 0, with nothing changed; otherwise the first free inode, in place; the invariants hold after it if the parent was linked or nothing changed, and cannot hold otherwise |
| Dir.CreateInRemoved | comp3300-lab4/xv6/kernel/sysfile.c:186-286 | a concrete run: a directory is made, removed while it is held, and a file or directory created in it, after which the invariants do not hold |
| Dir.Inodes.Link | comp3300-lab4/xv6/kernel/sysfile.c:121-168 | a new name iff the inode is no directory and the name free, else everything as before; the invariants hold after it if the parent was linked or nothing changed, and cannot hold otherwise |
| Dir.Inodes.Unlink | comp3300-lab4/xv6/kernel/sysfile.c:186-242 | removes the entry iff it is there, no dot, and not a directory in use; link counts follow; in a removed directory it fails and changes nothing |
| Dir.UnlinkHollow | comp3300-lab4/xv6/kernel/sysfile.c:186-242 | a removed directory still held has nothing but its dots, whatever is unlinked |
| Dir.Inodes.Iput | comp3300-lab4/xv6/kernel/fs.c:332-352 | an inode without links is freed, one with links kept |
| Dir.Inodes.Namex | comp3300-lab4/xv6/kernel/fs.c:620-657 | walks the path's elements from the root or the working directory and fails exactly when an element is missing or lies below no directory |
| Dir.ParentThenName | comp3300-lab4/xv6/kernel/fs.c:620-670 | the file a path names is the entry of its last name in the directory nameiparent gives; for a path of one element that is where the walk starts |
| Dir.FindFirst | comp3300-lab4/xv6/kernel/fs.c:522-548 | lookup gives the inode of the first entry in use with that name |
| Dir.Skipelem | comp3300-lab4/xv6/kernel/fs.c:583-618 | splits off the first element, shortened to DIRSIZ characters, and says whether it was the last |
| Dir.ElementsJoin | comp3300-lab4/xv6/kernel/fs.c:583-618 | a path built from elements reads back as exactly those elements |
| Grep.ItemsWritten | comp3300-lab4/xv6/user/grep.c:85-106 | every pattern is the writing of the items it is divided into, and those can be told apart |
| Grep.WrittenItems | comp3300-lab4/xv6/user/grep.c:85-106 | items that can be told apart in writing are what their writing is divided into |
| Grep.StartOne | comp3300-lab4/xv6/user/grep.c:85-96 | a plain item starts a match iff its character does and the rest matches after it |
| Grep.StartStar | comp3300-lab4/xv6/user/grep.c:99-106 | a starred item matches iff some run of its character is followed by a match of the rest |
| Grep.MatchStar | comp3300-lab4/xv6/user/grep.c:99-106 | true iff some number of the character and then a match of the rest start the text |
| Grep.MatchHere | comp3300-lab4/xv6/user/grep.c:85-96 | true iff a prefix of the text, or all of it under '$', is in the language of the pattern's items |
| Grep.Match | comp3300-lab4/xv6/user/grep.c:72-82 | terminates and is true iff the text has a match in the declarative language, at its start under '^', else anywhere |
| Grep.MatchesSubstring | comp3300-lab4/xv6/user/grep.c:72-82 | without anchors this is: some substring is in the language |
| ShGrammar.LexedOnce | comp3300-lab4/xv6/user/sh.c:266-309 | a line has one reading as tokens |
| ShGrammar.LexedWords | comp3300-lab4/xv6/user/sh.c:266-309 | the word tokens of a stretch are its maximal runs of plain characters, each once |
| ShGrammar.LineWords | comp3300-lab4/xv6/user/sh.c:345-447 | a tree derived from tokens holds exactly their words, as arguments and redirection files |
| ShGrammar.LineArrows | comp3300-lab4/xv6/user/sh.c:375-398 | in a tree derived from tokens every redirection stands for an arrow and its word, with descriptor 0 and mode 0 for '<', 1 and 0x201 for '>' and '>>' |
| ShGrammar.MixRows | comp3300-lab4/xv6/user/sh.c:375-447 | arguments and redirections mix in any order, each kind keeping its own |
| ShWords.SameWord | comp3300-lab4/xv6/user/sh.c:296-300 | maximal words that overlap are one |
| ShAccept.Tokens | comp3300-lab4/xv6/user/sh.c:266-309 | every line has a reading as tokens, with white space between them |
| ShAccept.MixForward | comp3300-lab4/xv6/user/sh.c:416-447 | arguments and redirections mixed in any order read forwards as an argument or an arrow and its file each, with as many arguments as the command holds |
| ShAccept.ExecAfter | comp3300-lab4/xv6/user/sh.c:400-447 | one token decides between a block and a simple command: what derives either starts, or does not start, with a parenthesis |
| ShAccept.LineAfter | comp3300-lab4/xv6/user/sh.c:345-360 | a derivable line starts with a derivable pipeline and ampersands, and is over or goes on after a semicolon with a derivable line |
| ShAccept.PipeAfter | comp3300-lab4/xv6/user/sh.c:362-373 | a derivable pipeline starts with a derivable command, and is over or goes on after a bar with a derivable pipeline |
| ShUnique.ExecOnce | comp3300-lab4/xv6/user/sh.c:400-447 | among the tokens to come at most one stretch is a command that what follows cannot continue, and it has one derivation |
| ShUnique.LineOnce | comp3300-lab4/xv6/user/sh.c:345-360 | the same for lines |
| ShUnique.OneTree | comp3300-lab4/xv6/user/sh.c:328-447 | the grammar is unambiguous: tokens have at most one derivation |
| Sh.Gettoken | comp3300-lab4/xv6/user/sh.c:266-309 | returns the first of the tokens still to come, longest match, and leaves the cursor before the rest; NUL exactly when there are none |
| Sh.Peek | comp3300-lab4/xv6/user/sh.c:311-321 | passes white space only and reports whether the next token starts with one of the symbols |
| Sh.Parseline | comp3300-lab4/xv6/user/sh.c:345-360 | terminates; passes exactly the tokens of the line that can be continued only by a closing parenthesis, returns a derivation of them, and panics only if there is no such line |
| Sh.Parsepipe | comp3300-lab4/xv6/user/sh.c:362-373 | the same for pipelines |
| Sh.Parseredirs | comp3300-lab4/xv6/user/sh.c:375-398 | wraps the command in the redirections passed, in order, with their modes and descriptors (0 and read for '<', 1 and write with create for '>' and '>>'); stops at the first other token, and panics only where an arrow has no file |
| Sh.Parseblock | comp3300-lab4/xv6/user/sh.c:400-414 | the same for a parenthesised line and its redirections |
| Sh.Parseexec | comp3300-lab4/xv6/user/sh.c:416-447 | the same for simple commands: panics only if what follows is no command or has too many arguments; arguments and files keep their order |
| Sh.Nulterminate | comp3300-lab4/xv6/user/sh.c:449-494 | stores a NUL at the end of every word of the tree and nowhere else |
| Sh.CutIntact | comp3300-lab4/xv6/user/sh.c:449-494 | ending one word never touches a character of another |
| Sh.Parsecmd | comp3300-lab4/xv6/user/sh.c:328-343 | accepts a line if and only if the grammar derives its tokens with fewer than MAXARGS arguments in each command; the tree is the only derivation, its words are exactly the line's maximal words, and each then stands in the line as a string of its own; every redirection has the file, mode and descriptor its arrow calls for, the last arrow outermost; a refused line is unchanged |

## Left out

- Umalloc.Heap.Malloc: does not model 32-bit overflow in rounding the request or in the bytes asked of sbrk.
- Exec.Exec: what the file holds, headers and segment bytes, is a parameter, with any of it possibly missing; the process's name and registers other than sp are left out.
- UserBytes.Copyout: what happens after the source has read an entry through a null pointer is not followed; the call returns FAULT there.
- Log.Log.Record: requires room for the block, as `LogOps.NoOverrun` gives it; what the code does to memory and disk after an overrun is followed only as far as `LogOps.OverrunCorrupts`.
- Sh.Parsecmd: leaves out allocation failure in the constructors, and running the command.
- Pipe.Pipe.Close: requires that no process sleeps inside a call on the end being closed, as the reference count of its file guarantees.
- Bio.Cache.Bwrite: takes a valid buffer, as bread returns it.
- Bio.Cache.Bget: speaks of nonzero devices only; waiting for the buffer's sleeplock is a step of its own.
- Vm.Mappages: one user page or a stretch of kernel pages, which is all callers ask for; a second mapping of a page is a panic and excluded.
- UserSpace.Copyuvm: requires every page below sz to be present, since the source panics otherwise.
- UserSpace.Allocuvm: requires the pages to be added to be absent, and on failure leaves page tables it made, as the source does.
- Dir.Inodes.Iput: takes the inode to have no other references; the inode cache, its reference counts and inode locks are not modelled.
- Fs.Fs.Iput: the number of references is a parameter.
- Fs.Fs.Writei: requires a non-device inode; a file system without holes below each size is assumed, which mkfs breaks only for a root directory whose size is already a multiple of the block size.
- Proc.Kernel.Allocproc: pids are unbounded; the wrap of the C int is not modelled.
- 16-bit overflow of nlink is not modelled; path walking works on entries, not on their bytes.
- Log and file system are joined by the bounds on blocks logged and by `FsCrash`; the buffer cache stands alone beside both.
- File table reference counts, pipealloc, device files, stat and chdir are not modelled.
- Spinlock internals, memory ordering, scheduling policy, trap handling, boot code and device drivers.
- The unimplemented assignment calls (mmap family, priorities, other schedulers) have no code to model.
- grep's loop over its read buffer: it drops a partial line when a read holds no newline, so only the matcher is modelled.
- mkfs's main, inituvm, growproc, and the user test programs.
