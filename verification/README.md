# Nachos: a verified model of the kernel, the disk and the simulated machine

Dafny models of the parts of Nachos where the difficulty lies, with proofs of
what they promise. The project verifies with `dafny verify dfyconfig.toml`.

* **On-disk file system.** `BitMap`, `FileHeader`, `Directory`, `OpenFile` and
  `FileSystem` are classes over a disk of 128-byte sectors. The bitmap and the
  directory are themselves files on the disk they describe, so every fact about
  them passes through header, directory-entry and bitmap-word encodings.
  `FsImages.Consistent` is the whole-disk invariant: the bitmap marks exactly
  the sectors owned by the bitmap file, the directory file and the listed files,
  these are pairwise disjoint, and listed names are unique. Every sequence of
  calls refines a map from names to byte strings. The number of sectors, of
  directory entries and of page frames are constants without a value, so all of
  this holds for every size that the two meta files can describe.
* **Threads and synchronization.** `Kernel` is a transition system: a step is a
  stretch of kernel code between two calls or returns, routines push frames with
  the interrupt level to restore, and preemption and device interrupts happen
  whenever interrupts are on. `SynchDisks`, `SynchLists` and `Joins` are the
  protocols built on top, again with arbitrary interleaving. `KernelUse` shows
  that code which keeps some locks, semaphores and conditions to itself is not
  disturbed by anything else on the kernel. With it `Monitors`, `DiskMonitors`
  and `JoinMonitors`, and the modules after them, put the code of SynchList, of
  SynchDisk, and of Exec, Exit and Join on the kernel's threads and show that
  every run there is a run of `SynchLists`, `SynchDisks` and `Joins`.
* **Simulated time.** `List` is the first/last linked list on the heap,
  `Interrupt` the event queue with its clock, `DiskTiming.Disk` the seek and
  rotation arithmetic.
* **The MIPS machine.** `Multiplication` is the shift-and-add multiply,
  `Translation` the paged memory, `Mips`, `Cpus` and `Machines` the instructions
  with their delayed loads.
* **Parents and children.** `ChildRings` is the circular list of child records,
  `Joins` the Exec, Exit and Join calls of any number of threads.

Where the code and its comments disagree, the model follows the code:

* threads/scheduler.cc speaks of a FIFO ready list; the code keeps a priority
  queue. The model lets the scheduler pick any ready thread of least priority.
* filesys/directory.h allows names of 9 characters; `Add` and `FindIndex` use
  the first 9 of any longer name. Names with equal first 9 characters are the
  same name.
* `OP_OR` combines rs with itself, and `OP_SRL` and `OP_SRLV` shift in the sign.
* `Join` returns 0 rather than the exit status.
* `Lock::Release` accepts a call by a thread that does not own a held lock. That
  only the owner releases is a convention (threads/synch.h:62), and here a
  demand on the caller.

## Model

| member | source | states |
|---|---|---|
| Words.WordsRoundTrip | userprog/bitmap.cc:148-165 | decoding the bytes of an array of 32-bit words gives back the words |
| Bits.MaskTest | userprog/bitmap.cc:79 | masking with `1 << k` is non-zero exactly when bit k is set |
| BitMaps.MarkWord | userprog/bitmap.cc:46-51 | or-ing the mask into the right word sets that bit of the bitmap and no other |
| BitMaps.ClearWord | userprog/bitmap.cc:60-65 | and-ing the complement clears that bit and no other |
| BitMaps.BitMap.constructor | userprog/bitmap.cc:20-27 | all bits of a new bitmap are clear |
| BitMaps.BitMap.Mark | userprog/bitmap.cc:46-51 | the bit sequence changes at that bit only |
| BitMaps.BitMap.Clear | userprog/bitmap.cc:60-65 | the bit sequence changes at that bit only |
| BitMaps.BitMap.Test | userprog/bitmap.cc:74-83 | the answer is the bit |
| BitMaps.BitMap.Find | userprog/bitmap.cc:94-103 | takes the lowest clear bit, or returns -1 and changes nothing when there is none |
| BitMaps.BitMap.CountClear | userprog/bitmap.cc:111-119 | counts the clear bits |
| BitMaps.TakingMarks | userprog/bitmap.cc:94-103 | after n calls of Find exactly the n sectors handed out are newly marked, and all below them are in use |
| BitMaps.TakenAreLowestFree | filesys/filehdr.cc:48-49 | n calls of Find hand out the n lowest free sectors, in strictly increasing order |
| BitMaps.GiveBackRestores | filesys/filehdr.cc:41-68 | giving back what was handed out restores the bitmap bit for bit |
| BitMaps.GivenBackCount | filesys/filehdr.cc:61-68 | giving back distinct sectors in use frees exactly that many |
| FileHeaders.HeaderRoundTrip | filesys/filehdr.cc:77-94 | a header written to its sector reads back unchanged |
| FileHeaders.AllocatedWellFormed | filesys/filehdr.cc:41-52 | the sectors Allocate gives a header are distinct, in range and were free |
| FileHeaders.FileHeader.Allocate | filesys/filehdr.cc:41-52 | succeeds exactly when enough sectors are clear and then takes the lowest; on failure, also for a file too long for any header, the bitmap is unchanged |
| FileHeaders.FileHeader.FindSectors | filesys/filehdr.cc:48-49 | the loop of Allocate: the header's sectors and the bitmap are those of n calls of Find |
| FileHeaders.FileHeader.Deallocate | filesys/filehdr.cc:61-68 | gives back exactly the data sectors; the assertion that each is marked cannot fail |
| FileHeaders.FileHeader.FetchFrom | filesys/filehdr.cc:77-81 | the header becomes what its sector decodes to |
| FileHeaders.FileHeader.WriteBack | filesys/filehdr.cc:90-94 | the sector becomes the header's encoding and no other sector changes |
| FileHeaders.FileHeader.ByteToSector | filesys/filehdr.cc:106-110 | the sector holding a byte offset of the file |
| Directories.SameMeansSameKey | filesys/directory.cc:93-95 | comparing 9 characters matches exactly the names that agree up to there |
| Directories.CopiedKey | filesys/directory.cc:138 | copying 9 characters into an entry stores exactly the part of the name that is compared |
| Directories.EntryRoundTrip | filesys/directory.cc:63-80 | an entry decodes to itself |
| Directories.TableRoundTrip | filesys/directory.cc:63-80 | a directory table decodes to itself |
| Directories.Directory.FindIndex | filesys/directory.cc:90-97 | the first entry in use with that name, -1 when there is none |
| Directories.Directory.Find | filesys/directory.cc:108-116 | that entry's sector, -1 when there is none |
| Directories.Directory.Add | filesys/directory.cc:129-143 | fails when the name is present or the table full, else fills the first free entry and no other |
| Directories.Directory.Remove | filesys/directory.cc:153-162 | frees the entry found and no other, and says whether there was one |
| OpenFiles.FilledIsSpliced | filesys/openfile.cc:165-178 | a buffer with the partial first and last sectors read in and the new bytes copied over is the old file content with the new bytes spliced in, in every alignment case |
| OpenFiles.KeptBytesReadIn | filesys/openfile.cc:168-175 | reading in only the unaligned first and last sectors brings in every byte that must survive |
| OpenFiles.WrittenBack | filesys/openfile.cc:180-182 | writing the buffer's sectors back gives the file with the range replaced and changes no sector outside the file |
| OpenFiles.SectorsToBytes | filesys/openfile.cc:180-182 | writing consecutive sectors of a file from a buffer rewrites exactly the bytes the buffer covers |
| OpenFiles.BufferedChunk | filesys/openfile.cc:134-140 | the bytes copied out of the sectors read are the clipped range of the file |
| OpenFiles.OpenFile.ReadAt | filesys/openfile.cc:116-144 | returns exactly the clipped byte range of the file, for every position and length, and touches nothing else in the buffer |
| OpenFiles.OpenFile.WriteAt | filesys/openfile.cc:146-186 | the file becomes its old bytes with the clipped range replaced; every sector outside the file is unchanged |
| OpenFiles.OpenFile.ReadSectors | filesys/openfile.cc:134-137 | the buffer holds the sectors of the range in order |
| OpenFiles.OpenFile.WriteSectors | filesys/openfile.cc:180-182 | the sectors of the range hold the buffer in order, no other sector changes |
| OpenFiles.OpenFile.FillBuffer | filesys/openfile.cc:156-178 | the buffer holds the partial sectors' old bytes around the new bytes |
| OpenFiles.OpenFile.Read | filesys/openfile.cc:74-80 | reads at the seek position and advances it by the count |
| OpenFiles.OpenFile.Write | filesys/openfile.cc:82-88 | writes at the seek position and advances it by the count |
| Layouts.AddFile | filesys/filesys.cc:174-215 | marking a new file's free sectors keeps ownership disjoint and the bitmap exact |
| Layouts.DropFile | filesys/filesys.cc:257-288 | clearing a file's sectors does too |
| Layouts.FreeIsRest | userprog/bitmap.cc:111-119 | the number of clear bits is the number of sectors minus a header and the data of every file |
| FsImages.FormatConsistent | filesys/filesys.cc:80-137 | whatever was on the disk, formatting leaves a consistent, empty file system |
| FsImages.FormatHasRoom | filesys/filesys.cc:96-100 | after marking sectors 0 and 1 all others are clear, so the two allocations asserted on formatting succeed |
| FsImages.CanCreateMeans | filesys/filesys.cc:161-165 | Create can succeed exactly when the name is new, an entry is free, and the free sectors hold a header and the data |
| FsImages.RoomIsDetermined | filesys/filesys.cc:161-165 | how many sectors are free, and whether Create succeeds, is determined by the files there are: the sectors free after formatting less a header and the data of each |
| FsImages.CreateKeepsConsistent | filesys/filesys.cc:174-215 | a successful Create keeps the whole-disk invariant |
| FsImages.CreateMeans | filesys/filesys.cc:174-215 | after it the name finds a file of the requested size and every other name finds what it did |
| FsImages.RemoveKeepsConsistent | filesys/filesys.cc:257-288 | Remove keeps the whole-disk invariant |
| FsImages.RemoveMeans | filesys/filesys.cc:257-288 | after it the name finds nothing and every other name finds what it did |
| FsImages.WriteKeepsMeta | filesys/openfile.cc:146-186 | a write to a listed file leaves bitmap, directory and all headers as they were |
| FsImages.WriteMeans | filesys/openfile.cc:146-186 | a write is seen by later lookups of that file and of no other |
| FsImages.WriteKeepsHeaders | filesys/openfile.cc:146-186 | an open file's header stays that of its directory entry across writes |
| FsImages.CreateKeepsHeaders | filesys/filesys.cc:174-215 | Create leaves the header of every other name, and so every open file, as it was |
| FsImages.RemoveKeepsHeaders | filesys/filesys.cc:257-288 | Remove does too |
| FsImages.CreateThenRemove | filesys/filesys.cc:174-288 | Create then Remove of a name restores the bitmap exactly and the directory as a map |
| FsImages.StepRefines | filesys/filesys.cc:174-288 | every call keeps the invariant and has exactly its effect on the map from names to bytes; Create fails exactly when the name is taken, the directory is full or the file does not fit |
| FsImages.RunRefines | filesys/filesys.cc:80-288 | so does every sequence of Create, Remove, WriteAt and ReadAt calls |
| FileSystems.Format | filesys/filesys.cc:83-137 | the sequence of writes on formatting produces such a disk and the two open files |
| FileSystems.FileSystem.constructor | filesys/filesys.cc:80-143 | formatted: consistent and empty; otherwise the headers are read as they are, and a consistent disk gives a file system |
| FileSystems.FileSystem.Open | filesys/filesys.cc:227-241 | finds a file exactly when the name is listed, with that file's header, at position 0 |
| FileSystems.FileSystem.Create | filesys/filesys.cc:174-215 | takes the Create step: succeeds exactly when it can, and a failed call leaves the disk unchanged |
| FileSystems.FileSystem.Remove | filesys/filesys.cc:257-288 | takes the Remove step, or leaves the disk unchanged when the name is not listed |
| FsTests.Copy | filesys/fstest.cc:31-70 | a byte string copied in by chunks to a file created at its length is afterwards the file's content; a copy that cannot create leaves the disk unchanged |
| FsTests.ReadAll | filesys/fstest.cc:89-93 | reading from the start by chunks until 0 terminates and yields the whole file |
| FsTests.Print | filesys/fstest.cc:77-97 | prints exactly the content of the named file, nothing when it does not exist |
| KernelInv.InitInv | threads/thread.cc:35-44 | the invariant holds at the start |
| KernelRuns.StepKeeps | threads/synch.cc:64-210 | every step of every thread, and every preemption and device interrupt, keeps the kernel invariant |
| KernelRuns.RunsKeep | threads/synch.cc:64-210 | hence every reachable state satisfies it |
| KernelRuns.SemaphoreConserves | threads/synch.cc:64-98 | in every run a semaphore's value is its initial value plus completed Vs minus completed Ps |
| KernelRuns.NoLostWakeup | threads/synch.cc:64-98 | the value is never negative, and with a thread queued it is at most the number of threads woken by V that have not re-tested, who are ready or running |
| KernelRuns.MutualExclusion | threads/synch.cc:118-150 | throughout every run at most one thread is between Acquire and Release, and the lock is available exactly when none is |
| KernelRuns.FreeLockHasWoken | threads/synch.cc:118-150 | a free lock with waiters always has a woken waiter about to test it |
| KernelRuns.WindowIsProtected | threads/synch.cc:170-182 | a thread between giving up the lock and queueing on the condition runs with interrupts off |
| KernelRuns.WaitIsAtomic | threads/synch.cc:170-182 | in every run, from the moment a waiter gives up the lock until it is queued it is the only one to run and the condition's queue stays as it is, so no Signal comes between; the window ends with it at the end of that queue |
| KernelRuns.SignalWakesOne | threads/synch.cc:183-195 | in every run a Signal's work takes exactly the first waiter off the queue, who slept in Wait on that condition, makes it ready and leaves every other thread's status alone |
| KernelRuns.BroadcastWakesAll | threads/synch.cc:196-210 | Broadcast ends with the queue empty and every former waiter ready |
| KernelRuns.QueuesAreFifo | threads/synch.cc:64-210 | a step takes at most the head off a wait queue or puts the current thread at its end, so nobody is overtaken |
| KernelRuns.CurrentIsNotQueued | threads/thread.cc:248-263 | the running thread is on no wait queue |
| KernelRuns.PlacedOnceInRuns | threads/scheduler.cc:57-157 | throughout every run every thread is in exactly one place, once, and its status says which, also when a sleeper is woken while the machine idles |
| KernelRuns.DestroyedStaysAway | threads/thread.cc:180-191 | once destroyed, a thread is at no later state of the run current, ready or queued |
| KernelRuns.CarcassIsNotCurrent | threads/scheduler.cc:143-151 | the thread deleted after a switch is not the one switched to |
| KernelRuns.NeverStuck | threads/synch.cc:118-210 | at every state of every run a routine once entered legally can go on: the ASSERTs of Acquire, Release, Wait, Signal and Broadcast hold, inner calls and waits included, and a Yield or Sleep with ready threads has one to switch to |
| KernelUse.OtherStep | threads/synch.cc:64-210 | whatever the rest of the system does - routines of other threads, preemption, scheduling, other device interrupts - leaves the locks, semaphores, conditions and threads of code that keeps them to itself as they were |
| KernelUse.NewSemaphore | threads/synch.cc:35-40 | making a semaphore of value 0 keeps the kernel invariant |
| SynchDisks.StepKeeps | filesys/synchdisk.cc:72-109 | every interleaving of calls, lock and semaphore tests and disk interrupts keeps the invariant |
| SynchDisks.RunsKeep | filesys/synchdisk.cc:72-109 | hence every reachable state satisfies it |
| SynchDisks.OneRequestAtATime | machine/disk.cc:115-153 | whoever issues a request finds the disk idle; the semaphore is 0 or 1 |
| SynchDisks.PassesAfterOwnInterrupt | filesys/synchdisk.cc:72-97 | a thread gets past P exactly when no interrupt is outstanding, and an outstanding one is its own |
| SynchDisks.NeverStuck | filesys/synchdisk.cc:72-109 | every outstanding interrupt can be taken and every served thread can release the lock |
| SynchDisks.CallsAreAtomic | filesys/synchdisk.cc:72-97 | a returning call made exactly one transfer between its beginning and its end; reads return what the transfers before left in the sector; the disk holds all transfers in order |
| SynchLists.StepKeeps | threads/synchlist.cc:53-82 | every interleaving of Append and Remove keeps the invariant |
| SynchLists.RunsKeep | threads/synchlist.cc:53-82 | hence every reachable state satisfies it |
| SynchLists.FirstInFirstOut | threads/synchlist.cc:53-82 | in every run items removed, followed by items in the list, are the items appended, in order |
| SynchLists.NeverStuck | threads/synchlist.cc:70-82 | Remove never takes from an empty list, so its ASSERT holds |
| SynchLists.NoLostSignal | threads/synchlist.cc:53-82 | with the lock free and a consumer on the condition, there are at most as many items as signalled consumers that have not yet retried |
| Monitors.ContinueSimulated | threads/synchlist.cc:53-82 | a stretch of SynchList code between two kernel calls is a step of SynchLists, or none |
| MonitorUnseen.StepUnseen | threads/synch.cc:64-210 | no kernel step that is not SynchList's own is seen by it |
| MonitorCalls.OwnBody | threads/synch.cc:118-195 | the Acquire, Wait, Signal and Release that SynchList calls are its steps; the steps inside Wait look like one |
| MonitorRuns.StepKeepsMInv | threads/synchlist.cc:53-82 | every step of the kernel with SynchList on it keeps the combined invariant and means a step of SynchLists, or none |
| MonitorRuns.KernelRunsAreRuns | threads/synchlist.cc:53-82 | every run of SynchList on kernel threads, with preemption, scheduling and interrupts, is a run of SynchLists |
| MonitorRuns.KernelFirstInFirstOut | threads/synchlist.cc:53-82 | so items removed followed by items listed are the items appended, in every kernel run |
| MonitorRuns.KernelNoLostSignal | threads/synchlist.cc:53-82 | and with the kernel lock free and a thread asleep on the condition, items are at most the woken threads that have not retried |
| MonitorRuns.CallsAreLegal | threads/synch.cc:118-195 | SynchList meets the ASSERTs of the kernel routines: it signals, waits and releases only with the lock, never acquires twice, never takes from an empty list |
| DiskMonitorRuns.StepMeans | filesys/synchdisk.cc:72-109 | every step of the kernel with SynchDisk on it means a step of SynchDisks, or none; the device interrupt that performs the V is its Interrupt step |
| DiskMonitorRuns.KernelRunsAreRuns | filesys/synchdisk.cc:72-109 | every run of SynchDisk on kernel threads, with preemption, scheduling and interrupts, is a run of SynchDisks |
| DiskMonitorRuns.CodeGoesOn | machine/disk.cc:115-153 | in every kernel run SynchDisk meets the ASSERTs: the disk is idle when a request is issued, and the lock is released by its owner |
| DiskMonitorRuns.KernelPassesAfterOwnInterrupt | filesys/synchdisk.cc:72-97 | in every kernel run P lets a thread past exactly when no disk interrupt is outstanding, and an outstanding one is its own |
| DiskMonitorRuns.KernelCallsAreAtomic | filesys/synchdisk.cc:72-97 | in every kernel run a call that releases the lock has made exactly one transfer since it began; reads have what the transfers before left in the sector; the disk holds all transfers in order |
| Lists.InsertedSorted | threads/list.cc:179-203 | inserting keeps the keys sorted, adds exactly the new entry, and puts it behind all equal keys |
| Lists.StablePriorityQueue | threads/list.cc:179-239 | after any sequence of sorted inserts and removes the list is ordered by key and, among equal keys, by age |
| Lists.List.constructor | threads/list.cc:44-47 | a new list is empty |
| Lists.List.Append | threads/list.cc:77-89 | the entry goes to the end; `last` is the reachable tail |
| Lists.List.Prepend | threads/list.cc:103-115 | the entry goes to the front |
| Lists.List.SortedInsert | threads/list.cc:179-203 | the linked list refines sorted insertion into a sequence |
| Lists.List.InsertBehind | threads/list.cc:193-201 | the walk finds the place behind all equal keys and links the element in, or appends it |
| Lists.List.SortedRemove | threads/list.cc:219-239 | takes the first entry, and nothing from an empty list |
| Lists.List.IsEmpty | threads/list.cc:155-162 | true exactly for the empty list |
| Interrupts.RunsStayConsistent | machine/interrupt.cc:265-336 | in every run the interrupts scheduled are those fired plus those pending, none fires early, firing times never decrease, and nothing scheduled or fired is taken back |
| Interrupts.DueHaveFired | machine/interrupt.cc:151-179 | with nothing left due, every interrupt ever scheduled for a time up to now has fired |
| Interrupts.PutBackKeeps | machine/interrupt.cc:309-311 | putting back a head that is not due keeps the queue sorted and its contents, though equal keys may rotate |
| Interrupts.FireKeeps | machine/interrupt.cc:315-335 | firing a due head keeps the history consistent |
| Interrupts.AddKeeps | machine/interrupt.cc:265-275 | scheduling an interrupt for later does too |
| Interrupts.Interrupt.Schedule | machine/interrupt.cc:265-275 | the interrupt is queued for now plus its delay, nothing else changes; this and every method below is a chain of the moves of RunsStayConsistent |
| Interrupts.Interrupt.CallHandler | machine/interrupt.cc:330 | everything the handler schedules is queued, none of it due, and its wish for a context switch is kept |
| Interrupts.Interrupt.FireFirst | machine/interrupt.cc:315-335 | the earliest interrupt fires once, fewer are due afterwards, mode and handler flag are restored |
| Interrupts.Interrupt.CheckIfDue | machine/interrupt.cc:291-336 | fires exactly when the head is due or the clock may jump to it, except for a lone timer while idle; the clock moves only to that time; otherwise nothing is lost |
| Interrupts.Interrupt.FireAllDue | machine/interrupt.cc:166-170 | the loop terminates with nothing due left, the clock unmoved |
| Interrupts.Interrupt.OneTick | machine/interrupt.cc:150-179 | the clock and the counter of the mode advance by one tick, everything due fires, and a switch is asked for exactly when some handler wanted it |
| Interrupts.Interrupt.Idle | machine/interrupt.cc:210-234 | halts exactly when nothing but possibly one timer is pending, else jumps to the next interrupt and fires it |
| Interrupts.Interrupt.SetLevel | machine/interrupt.cc:114-127 | returns the old level; enabling interrupts that were off takes a tick, leaves nothing due and reports whether a switch is wanted; any other change leaves time alone |
| DiskTiming.LatencyIsExact | machine/disk.cc:232-253 | without the track buffer a request completes on the boundary at which the sector has just passed, the first time it passes after the seek |
| DiskTiming.LatencyIsBounded | machine/disk.cc:179-253 | every latency is between 500 and 31999 ticks |
| DiskTiming.TrackBufferIsExact | machine/disk.cc:241-246 | a read without a seek is served from the track buffer exactly when the sector passed completely since the buffer began to load |
| DiskTiming.FirstPass | machine/disk.cc:202-209 | ModuloDiff is the least number of sectors to turn before the sector passes |
| DiskTiming.Disk.Request | machine/disk.cc:115-153 | a request takes the exact latency of its case, and the buffer restarts at the first boundary after a seek |
| Multiplication.MultLoop | machine/mipssim.cc:659-677 | the loop computes the unsigned product, carries, early exit and the arithmetic shift of a negative multiplier included |
| Multiplication.Mult | machine/mipssim.cc:635-692 | hi:lo is the exact 64-bit product, signed or unsigned, for all 32-bit operands |
| Translation.FaultsExactly | machine/translate.cc:186-255 | which exception an access through a page table raises, and when it raises none, for every table |
| Translation.StaysInPage | machine/translate.cc:196-200 | an aligned access stays inside its page |
| Translation.InMemory | machine/translate.cc:252 | the ASSERT on the physical address never fails |
| Translation.NoAliasing | machine/translate.cc:240-251 | two mapped virtual bytes share a physical byte only if they are the same |
| Translation.StepIsFlat | machine/translate.cc:87-169 | one read or write, faults included, acts as on a flat little-endian byte memory |
| Translation.RunIsFlat | machine/translate.cc:87-169 | so does every sequence of reads and writes |
| Translation.ReadAfterWrite | machine/translate.cc:87-169 | a read sees the last write of the same size |
| Translation.ValueRoundTrip | machine/translate.cc:100-166 | what survives a store and load: all of a word, the low half unsigned, the low byte signed |
| Translation.DirtyMarksEveryChange | machine/translate.cc:248-250 | over any run, a byte that changed is on a page whose dirty bit is set, and dirty bits are never cleared |
| Translation.TlbAgrees | machine/translate.cc:222-233 | a TLB holding part of the page table faults exactly when the page is not in it, and otherwise agrees with the page table |
| Translation.Machine.Lookup | machine/translate.cc:211-234 | the table index or TLB search finds the first matching valid entry, or the exception |
| Translation.Machine.Translate | machine/translate.cc:186-255 | the outcome of translation; only the entry used changes, in its use and dirty bits |
| Translation.Machine.ReadMem | machine/translate.cc:87-122 | takes the read step of the memory |
| Translation.Machine.WriteMem | machine/translate.cc:137-169 | takes the write step of the memory |
| Mips.DecodeEncoded | machine/mipssim.cc:589-626 | decoding the encoding of an instruction gives back its operation, registers and immediate, for every operation |
| Mips.TablesAgree | machine/mipssim.h:117-150 | the opcode tables hold each operation at its architectural number |
| Mips.LogicalBits | machine/mipssim.cc:153-159 | the bitwise operators act bit by bit |
| Mips.ShiftRightFloors | machine/mipssim.cc:436-455 | the right shifts divide by a power of two and round down, SRL and SRLV included |
| Mips.ShiftAgreesExactly | machine/mipssim.cc:445-455 | the outcome of SRL and SRLV is that of the architecture's logical shift exactly for a non-negative operand or a shift by nothing |
| Mips.OrAgreesExactly | machine/mipssim.cc:375-377 | the outcome of OR is that of the architecture exactly when every bit set in rt is set in rs |
| Mips.WhereTheyDiffer | machine/mipssim.cc:375-455 | OR of 0 and 1, and SRL of -1 by 1, differ from the architecture |
| Mips.DivisionIsExact | machine/mipssim.cc:195-203 | DIV leaves the quotient rounded towards zero and its remainder exactly when it is not the most negative number by -1 |
| Mips.AluReads | machine/mipssim.cc:122-553 | an instruction's result depends only on the operands it is listed as reading |
| Mips.OverflowIsExact | machine/mipssim.cc:125-143 | the sign-bit tests of ADD, ADDI and SUB trap exactly on overflow, and the result is exact otherwise |
| Cpus.StepKeepsValid | machine/mipssim.cc:93-582 | every instruction leaves register 0 zero and the load register a general register |
| Cpus.StepWhenFlushed | machine/mipssim.cc:93-582 | executing an instruction after an early flush of the pending load gives the same machine, unless it touches the load's target |
| Cpus.PreemptionIsTransparent | machine/interrupt.cc:323-326 | wherever interrupts flush the pending load in a run without such instructions, the run ends as the uninterrupted one, through exceptions and failed ASSERTs |
| Cpus.FlushedAreEqual | machine/machine.cc:100-111 | machines that differ only in a load into register 0 are equal once the load is done |
| Cpus.FlushMattersExactly | machine/mipssim.cc:93-582 | for every instruction, hazard or not: an early flush of the pending load makes no difference exactly when the instruction does the same on the operands with the load done and, if it writes the load's target, writes the loaded value |
| Cpus.ReadingTheTarget | machine/mipssim.cc:575-582 | for ADDIU of the target that condition is that the loaded value is the old one |
| Cpus.WritingTheTarget | machine/mipssim.cc:575-582 | every instruction that writes the target without reading it gives the same machine exactly when the loaded value is the written one |
| Machines.Cpu.DelayedLoad | machine/mipssim.cc:575-582 | the pending load is done, the next one recorded, register 0 zeroed |
| Machines.Cpu.RaiseException | machine/machine.cc:100-107 | the bad address is recorded and the pending load done before the kernel runs |
| Machines.Cpu.Multiply | machine/mipssim.cc:361-369 | the registers receive the words of the exact product |
| Machines.Cpu.Load | machine/mipssim.cc:231-343 | address check, memory read and the delayed value of every load |
| Machines.Cpu.StoreWord | machine/mipssim.cc:383-532 | the same for every store |
| Machines.Cpu.Advance | machine/mipssim.cc:555-565 | results, delayed load and program counters in the order of the source |
| Machines.Cpu.OneInstruction | machine/mipssim.cc:93-565 | fetch, decode and execution in place take the step the transparency theorem is about |
| ChildRings.Thread.Link | threads/thread.cc:391-402 | the ring stays one circular doubly linked list, the new record last |
| ChildRings.Thread.constructor | threads/thread.cc:365-403 | a child's record gets the next global id and goes to the end of its parent's ring, whose ids stay strictly increasing |
| ChildRings.Thread.Find | userprog/exception.cc:352-366 | the walk of Join terminates and finds a record exactly when the id is a child's |
| Joins.StepKeeps | userprog/exception.cc:304-367 | every Exec, notification, Finish and Join of any thread keeps the invariant |
| Joins.RunsKeep | userprog/exception.cc:304-367 | hence every reachable state satisfies it |
| Joins.JoinFollowsNotification | userprog/exception.cc:349-367 | a Join that returns 0 returns to the parent after that child's notification, and is the first for that child |
| Joins.EachChildIsJoinedOnce | userprog/exception.cc:337-367 | over a whole run no child notifies twice, none is joined twice, and each join follows its notification |
| JoinMonitorRuns.StepMeans | userprog/exception.cc:304-367 | every step of the kernel with Exec, Exit and Join on it means a step of Joins, or none: V on a record's semaphore is the notification, P past its test the return of Join |
| JoinMonitorRuns.KernelRunsAreRuns | userprog/exception.cc:304-367 | every run of Exec, Exit and Join on kernel threads and semaphores is a run of Joins |
| JoinMonitorRuns.KernelJoinFollowsNotification | userprog/exception.cc:349-367 | in every kernel run P lets a Join past only for the parent, after that child's V, and once |
| JoinMonitorRuns.KernelEachChildIsJoinedOnce | userprog/exception.cc:337-367 | over a whole kernel run no child notifies twice, none is joined twice, and each join follows its notification |
| JoinMonitorRuns.CallsAreLegal | userprog/exception.cc:337-367 | Join and Exit can be called from user code in every state of every kernel run, and Exit can be completed |

## Left out

- Widths: simulated ticks, list keys, `position + numBytes` and semaphore values are unbounded; registers, memory words and bitmap words have 32 bits with explicit wrap-around.
- FileHeaders.FileHeader.Allocate: excludes negative sizes, and sizes above MaxFileSize that would fit on the disk, because the source never compares the sector count with NumDirect and writes past its table.
- FileSystems.FileSystem.Create: excludes the same calls.
- FsTests.Copy: excludes the same calls.
- OpenFiles.OpenFile.ReadAt: demands a non-negative position, as the sector arithmetic does.
- OpenFiles.OpenFile.WriteAt: demands a non-negative position.
- OpenFiles.OpenFile.Read: demands a non-negative seek position.
- OpenFiles.OpenFile.Write: demands a non-negative seek position.
- The sizes of a sector, a header, a name and a page are the compiled constants. The numbers of sectors and of directory entries are any for which the bitmap and the directory fit a header (at most 30720 and 192), the number of sectors a multiple of 32 and at least 64; DiskTiming has the compiled 32 tracks of 32 sectors.
- Directory entries are a 1-byte flag, 3 bytes of padding, the sector, the 10-byte name and 2 bytes of padding, with the padding written as zero; another compiler may lay them out differently.
- The synchronization routines and SynchDisk, SynchList, Exec, Exit and Join are steps of transition systems over values, not methods of classes, because a method cannot be interleaved with others; updates inside one step are therefore simultaneous.
- Issuing a disk request is one step, as ReadRequest and WriteRequest call nothing that can switch threads. In Exec the making of the child's record and the outcome of loading its file are one step; the disk accesses between them are not part of this model.
- Fairness and liveness: no claim that a ready or woken thread runs in the end, that a lock is obtained in the end, or that a waiting Join returns.
- Interrupts.Interrupt.OneTick: the context switch it ends with when one is wanted is reported as a result; the Kernel module has it as the Preempt step.
- Interrupts.Interrupt.SetLevel: reports the switch wanted by its tick in the same way.
- Handlers of device interrupts are arbitrary functions of the call's number and the interrupt; they may schedule and ask for a switch, and cannot enable interrupts.
- Machines.Cpu.OneInstruction: the switch over the opcodes computes results from operands read at once and stores them at the end; the instructions that write a register before reading another say so in their results. The kernel's exception handler is a function of the machine in Cpus and is not called here.
- DIV of the most negative number by -1 is undefined in C; the model gives the wrapped quotient.
- The exit status that notifyParent stores in a child record is read by nothing and not modelled.
- Disk contents in DiskTiming and the UNIX file behind the disk: SynchDisks and FileHeaders have the contents, DiskTiming the times.
- `AddrSpace` demand paging and eviction: the code does not settle what the swap path guarantees.
- `createStackArgs`, `FD_List` and the other system calls are plumbing.
- `Thread::~Thread`, freeing of child records and of kernel objects: the loop meant to free the ring never executes.
- Concurrent use of the file system and removal of an open file: filesys/filesys.cc:33 excludes them.
- Console, network, command line, statistics printing, debugging output, `FILESYS_STUB`, bin/ and switch.s.
