# Nachos, modelled and proved in Dafny

This project models the parts of a Nachos operating-system simulator whose correctness is least
visible from any one function, and proves what they promise.  `dafny verify dfyconfig.toml` checks all
of it.

## What is modelled

**Demand-paged virtual memory.** Page tables map virtual pages to swap pages; `VMManager` caches swap
pages in physical frames, evicts by a policy and writes dirty victims back.  `Paging`, `PagedMemory`,
`PagedAccess`, `AddressSpaces` and `PagedRuns` give the steps on values and the refinement: every run of
loads, stores, faults, evictions, program loading, and creation and destruction of any number of spaces,
under any policy that picks a frame, answers exactly as one private flat byte array per space would.
`BitMaps`, `Replacement`, `PageStores`, `VmManager`, `PagedMachine` and `PagedSystem` are the same
machinery in place (32-bit bitmap words, shifted queue arrays, byte arrays for memory and swap); each
method is proved to take the step of the value model, and `PagedSystem.Execute` carries the flat-memory
theorem over to the objects.  The policy logs what is asked of it, which ties the object's victims to the
FIFO and LRU theorems.  `PagedHistory` says what each request means byte by byte, and what use bits, dirty
bits and free swap pages tell of the past.

**The MIPS core.** `Multiply` is the shift-and-add multiply, `Bits` C's bitwise operations and what the
simulator's masks and sign tests come to.  `Instructions` and `Processor` give decoding and one
instruction with its delayed load; `Architecture` says what every instruction does to registers, program
counters and memory without reference to how they compute it.  `Restarts` says exactly when fault and retry
equals direct execution, for every instruction and for whole programs, with interrupts between the
attempts.  `Machine` is the register file updated in place over the paged memory of the `VMManager` object,
and `Multiprogramming` passes it from program to program: whatever the schedule, each gets on as if alone
with a flat memory.

**The thread kernel.** `Threads` has the running thread, ready list and wait queues; `Synchronization` the
semaphores, Mesa locks and conditions, and barriers; `KernelRuns` all interleavings of all of them, and
`KernelEffects` the full effect of each step and whose turn comes when.  A step runs from one point at which
the processor can be lost to the next; in `Wait` there is one between the return of `Sleep` and the call of
`Acquire`.  `SynchList` and `SynchDisk` are clients that run on that kernel among arbitrary other code
(`KernelFrame` says what such code leaves alone).  `PostOffice` is the mail protocol between machines, and
`PostRooms` runs it on a kernel per machine.  `Interrupts` is the simulated clock over the linked list of
`Lists`, and `Deadlines` what those who ask for interrupts may count on.

**Files.** `FileHeaders` allocates sectors and looks them up; `OpenFiles` reads and writes byte ranges by
whole sectors.

Sizes such as the number of frames, the page size, the swap size and the number of mailboxes are
parameters.  Time, randomness and the choices of the replacement policy are parameters of the steps.

## Where the code does not do what it is for

- LRU: `pageUsed` and `markPage` stop at the first empty slot, which may stand before frames in use, and
  then the victim need not be the least recently used frame.  `Replacement.LruBeforeFull` gives a run.
  `Replacement.LruStep`: a use keeps the frames in the order of their last use exactly when every slot
  behind the one it fills is empty.  `Replacement.LruRun`: from boot the order holds throughout exactly when
  every use is such.  `Replacement.LruOnceFull`: with memory full and until a clear, the victim is a frame
  not used since, or the least recently used.
- `ByteToSector` picks the pointer block from the size of the file, not the offset.
  `FileHeaders.RightUpTo34`: it finds every byte exactly when the file has at most 34 sectors;
  `FileHeaders.ThirtyFiveSectors` is a header for which it does not.
- `Allocate` counts data sectors but not pointer blocks before it takes them.
  `FileHeaders.GoodAllocation`: the map it makes is good exactly when there was room for both;
  `FileHeaders.NoRoomForPointers` is one that is not.
- A page fault, or an interrupt before the instruction, applies a pending delayed load early.
  `Restarts.RestartIff`: fault and retry equals direct execution exactly when the instruction does not
  fault or does the same with the load applied as with it pending; `Restarts.ComputesHarmless`,
  `JumpsHarmless`, `MoveFromHarmless` and `HiLoHarmless` say what that takes.  `Restarts.ReadingPendingDiffers`
  and `Restarts.WritingPendingDiffers` are an instruction that reads the register of the load, and one that
  writes it, ending differently; not all that touch it do.
- A drain may end with an interrupt still due.  `Interrupts.DrainLeavesTimer`: exactly when the machine is
  idle, all that is pending is due, a timer comes last, and no handler before it schedules anything.
- `Network::Send` never sets `sendBusy`, so its assertion on that flag checks nothing.
  `PostRooms.NeverBusyAtSend` proves what it stands for.
- The comment on `IndirectPointerBlock::ByteToSector` takes the offset relative to its own block; the
  caller passes it relative to the first block.  The code is followed.

## Model

| member | source | states |
|---|---|---|
| PagedRuns.PagingInvisible | machine/translate.cc:83-250 | over every run of loads, stores, faults, program loading, creation and destruction of spaces, under any picks, the answers and every final byte are those of private flat memories |
| PagedRuns.PolicyInvisible | vm/vmManager.cc:38-94 | two machines that differ in policy, memory size or placement give the same answers to the same operations |
| PagedRuns.Isolation | vm/vmManager.cc:38-94 | the answers of one space are those it would get with the machine to itself |
| PagedRuns.StepRefines | machine/translate.cc:83-161 | each operation on paged memory is that operation on the flat memories, answer included |
| PagedRuns.BootReady | vm/vmManager.cc:8-19 | the initial state satisfies the invariant and shows no space |
| PagedHistory.StepMeans | machine/translate.cc:83-161 | each operation on paged memory reads, writes, makes zeroed and writable, patches or removes exactly the bytes and bits it is for, in one space, and leaves the others |
| PagedHistory.BitsTellHistory | machine/translate.cc:230-245 | over every run the use bit of a page is set exactly when it was accessed, and the dirty bit exactly when it was written, since the page last came into memory |
| PagedHistory.NothingLeftInSwap | vm/swapManager.cc:19-52 | over every run each swap page that belongs to no program is zero |
| PagedHistory.SwapInBrings | vm/vmManager.cc:38-80 | a swap in full: the first free frame, or the pick only when none is free, gets the page; the page it held goes back to its swap page with its bits cleared; all else stays |
| Paging.SwapInInvisible | vm/vmManager.cc:38-80 | swapping in a page that is in no frame, whatever frame is picked, keeps the cache coherent and changes nothing a program can see |
| Paging.EvictInvisible | vm/vmManager.cc:51-67 | writing the victim back if dirty, and clearing its bits, changes nothing a program can see and leaves it clean |
| Paging.InstallInvisible | vm/vmManager.cc:74-79 | reading a page into a frame that is free or holds a clean page changes nothing a program can see |
| Paging.SwapInPlaces | vm/vmManager.cc:48-76 | after the swap the page is in the first free frame or the picked one, and no other page has come in |
| PagedMemory.TranslateInvisible | machine/translate.cc:230-245 | bringing the page in and setting its bits changes nothing a program can see |
| PagedMemory.WriteFrameWrites | machine/translate.cc:142-158 | a store to the frame of a dirty page changes those bytes of that page and of no other, in frames or swap |
| PagedMemory.WritesView | machine/translate.cc:142-158 | a write inside one page is a write to that range of one space's flat bytes |
| PagedMemory.LoadRefines | machine/translate.cc:95-112 | the value taken from the frame is the one in the flat memory at the virtual address |
| PagedAccess.ReadMemRefines | machine/translate.cc:83-116 | a read attempt gives the flat memory's answer, traps and faults included, and every view follows it |
| PagedAccess.WriteMemRefines | machine/translate.cc:131-161 | a write attempt gives the flat memory's answer, traps and faults included, and every view follows it |
| PagedAccess.FaultInRefines | userprog/exception.cc:339-349 | a handled fault sets one valid bit and leaves every byte of every space as it was |
| UserMemory.CheckedIsInside | machine/translate.cc:186-247 | an access that passes the checks stays inside the bytes of the space |
| UserMemory.LoadAfterStore | machine/translate.cc:95-158 | a load returns the low bytes of the last store to the same address |
| UserMemory.TestsExact | machine/translate.cc:186-214 | the alignment and page-number tests pass exactly when the access is aligned and ends inside the bytes of the space |
| UserMemory.ReadExact | machine/translate.cc:83-116 | a read gives the bytes standing at the address, lowest first, if and only if it is aligned, ends inside the space and its page is valid; else which exception or fault, and nothing changes but the valid bit of a page that faulted |
| UserMemory.WriteExact | machine/translate.cc:131-161 | a write changes exactly the bytes from the address on, to those of the value, if and only if it is aligned, inside, on a valid page that is not read-only; else which exception or fault, and no byte changes |
| AddressSpaces.CreateRefines | userprog/addrspace.cc:103-123 | a created space reads as zeros, costs exactly its pages in swap and disturbs no other space |
| AddressSpaces.DestroyRefines | userprog/addrspace.cc:147-159 | destruction removes the space and nothing else from view, leaves no entry or frame of it, and returns exactly its swap pages, even when it evicts others' dirty pages |
| AddressSpaces.CreateThenDestroy | userprog/addrspace.cc:103-159 | creation followed by destruction restores the free swap pages and every view |
| AddressSpaces.PokeRefines | vm/swapManager.cc:31-33 | writing the swap page of a page not yet valid is writing its bytes |
| AddressSpaces.ClearPageCoherent | vm/vmManager.cc:97-110 | clearing a page keeps the cache coherent and frees one swap page |
| VmManager.VMManager.constructor | vm/vmManager.cc:8-19 | the object starts in the boot state with its records in agreement |
| VmManager.VMManager.WriteBack | vm/vmManager.cc:53-67 | takes the eviction step in place and keeps the invariant |
| VmManager.VMManager.TakeFree | vm/vmManager.cc:48-50 | the first free frame is marked and the policy told of it |
| VmManager.VMManager.TakeVictim | vm/vmManager.cc:51-52 | the policy gives up its head, and nothing else changes |
| VmManager.VMManager.FindFrame | vm/vmManager.cc:48-67 | marks and queues a free frame if there is one, else takes the policy's victim and writes it back; the policy's log says which |
| VmManager.VMManager.LoadFrame | vm/swapManager.cc:36-39 | reads the swap page into the frame and records it in both maps |
| VmManager.VMManager.Swap | vm/vmManager.cc:38-80 | takes exactly the swap step, with the policy's head as the pick, logs what was asked of the policy, and keeps bitmap, maps and queue in agreement |
| VmManager.VMManager.FindResident | vm/vmManager.cc:87-91 | the first frame whose entry is the swap page, or none |
| VmManager.VMManager.GetPhysicalPage | vm/vmManager.cc:87-94 | the frame of the page, swapped in if it had none, and only then is the policy asked |
| VmManager.VMManager.MarkPage | vm/vmManager.cc:117-119 | the queue becomes what the policy makes of a touch, and nothing else changes |
| VmManager.VMManager.SetBits | machine/translate.cc:244-245 | sets the use bit, and the dirty bit on a write |
| VmManager.VMManager.StoreBytes | machine/translate.cc:142-158 | the bytes go to the frame of the page |
| VmManager.VMManager.AllocPage | vm/swapManager.cc:19-28 | the first free swap page, zeroed, becomes the next page of the space |
| VmManager.VMManager.WritePage | vm/swapManager.cc:31-33 | the buffer goes to an offset of the entry's swap page |
| VmManager.VMManager.FreeFrame | vm/vmManager.cc:100-109 | the frame is free in all three records |
| VmManager.VMManager.FreeSwapPage | vm/swapManager.cc:48-52 | the swap page is zeroed and free |
| VmManager.VMManager.ClearEntry | vm/vmManager.cc:97-110 | takes exactly the clearing step, keeps the records in agreement and tells the policy |
| VmManager.BookkeepingAgrees | vm/vmManager.cc:38-110 | of every valid object: a frame is marked in the bitmap exactly when activePageMap is non-negative there, when activePages is set, and when it is in the queue once |
| VmManager.VictimIsHeld | vm/vmManager.cc:52-56 | with no free frame the queue's head is a frame, and it holds a page |
| VmManager.FifoReplaces | vm/fifo.cc:11-40 | of every valid object with FIFO and no free frame: the frame up for replacement was loaded before every other |
| VmManager.LruReplaces | vm/lru.cc:11-56 | the same for LRU and the last use, as long as no load or touch went in front of a frame |
| PagedMachine.CheckAccess | machine/translate.cc:186-229 | an address error if and only if the access is misaligned or ends beyond the space, else a fault if and only if its page is not valid, else an error if and only if it writes a read-only page |
| PagedMachine.ReachPage | machine/translate.cc:230-245 | the page is brought in, the policy told of the touch, and the use and dirty bits set |
| PagedMachine.TranslateAddress | machine/translate.cc:178-250 | an exception and no change, or the frame of the page with its bits set; and all that the policy hears of it: that it was asked for a frame if the page had none, and that the frame was touched |
| PagedMachine.HandlePageFault | userprog/exception.cc:339-349 | takes the fault step: the page is swapped in and valid, and the policy was asked once, for its frame |
| PagedMachine.ReadWord | machine/translate.cc:83-116 | ReadMem on the object is ReadMem of the value model, and what the policy hears is exactly what the access calls for |
| PagedMachine.WriteWord | machine/translate.cc:131-161 | so is WriteMem |
| PagedMachine.CreateSpace | userprog/addrspace.cc:103-123 | the constructor's loop is the creation step |
| PagedMachine.ReleasePage | userprog/addrspace.cc:151-152 | one turn of the destructor's loop, the policy told that the frame is free |
| PagedMachine.DestroySpace | userprog/addrspace.cc:147-159 | the destructor's loop is the destruction step |
| PagedMachine.LoadChunk | userprog/addrspace.cc:263-274 | a chunk that does not cross a page extends the loaded image by itself |
| PagedMachine.ReadFile | userprog/addrspace.cc:255-291 | for any start and size the loop ends, no write crosses a page, and the flat image is the file's bytes on the range and unchanged elsewhere, though copySize is carried between turns |
| PagedSystem.Answer | vm/vmManager.cc:38-110 | one request to the object does to the programs' memories what the request means, byte by byte, and accounts for the free swap pages |
| PagedSystem.ReadFlat | machine/translate.cc:83-116 | ReadMem on the object reads the program's own flat memory as UserMemory.ReadExact says, exceptions and faults included, and every other program's stays |
| PagedSystem.WriteFlat | machine/translate.cc:131-161 | so does WriteMem, as UserMemory.WriteExact says |
| PagedSystem.Execute | vm/vmManager.cc:38-110 | any sequence of requests to the object is answered as private flat memories would answer it |
| BitMaps.BitMap.Mark | userprog/bitmap.cc:46-51 | sets the one bit and no other, over 32-bit words |
| BitMaps.BitMap.Clear | userprog/bitmap.cc:60-65 | clears the one bit and no other |
| BitMaps.BitMap.Test | userprog/bitmap.cc:74-83 | the bit |
| BitMaps.BitMap.Find | userprog/bitmap.cc:94-103 | finds and marks the first clear bit, or returns -1 and changes nothing |
| BitMaps.BitMap.NumClear | userprog/bitmap.cc:111-117 | the number of clear bits |
| BitMaps.CountFindsClear | userprog/bitmap.cc:94-117 | the count is positive exactly when Find succeeds |
| BitMaps.CountUpdate | userprog/bitmap.cc:46-117 | a Mark takes one from the count and a Clear gives one back |
| Replacement.ReplacementQueue.PageUsed | vm/fifo.cc:11-18 | the first empty slot takes the frame |
| Replacement.ReplacementQueue.GetReplacement | vm/fifo.cc:20-27 | returns the head and rotates it to the back, in place |
| Replacement.ReplacementQueue.Shift | vm/lru.cc:42-56 | the two loops of clearPage and markPage close the gap up to the first empty slot |
| Replacement.ReplacementQueue.ClearPage | vm/fifo.cc:29-40 | the frame is taken out and the gap closed |
| Replacement.ReplacementQueue.MarkPage | vm/lru.cc:42-56 | LRU moves the frame back; FIFO does nothing |
| Replacement.PutAgrees | vm/fifo.cc:11-18 | after a load each frame in use is queued once |
| Replacement.RotateAgrees | vm/lru.cc:20-27 | a replacement keeps the queue's frames |
| Replacement.DropAgrees | vm/lru.cc:29-40 | a clear takes exactly that frame out |
| Replacement.MarkAgrees | vm/lru.cc:42-56 | a touch keeps the queue's frames, holes or not |
| Replacement.FifoVictim | vm/fifo.cc:11-40 | in every run, with memory full, the victim is the frame loaded longest ago |
| Replacement.LruStep | vm/lru.cc:11-56 | a load, replacement, clear or touch keeps the frames in order of last use if and only if every slot behind the one a load or touch fills is empty |
| Replacement.LruRun | vm/lru.cc:11-56 | from boot, the order holds throughout a run if and only if every step of it is such |
| Replacement.LruVictim | vm/lru.cc:20-27 | in such a run, with memory full, the victim is the frame used longest ago |
| Replacement.LruOnceFull | vm/lru.cc:20-56 | in every run, once memory is full and until a clear, the victim is a frame not used since then or else the frame used longest ago |
| Replacement.LruBeforeFull | vm/lru.cc:42-56 | a run in which the victim is not the least recently touched frame |
| Multiply.Mult | machine/mipssim.cc:625-680 | hi:lo is the full 64-bit product for all words, signed and unsigned, the most negative included |
| Multiply.Accumulate | machine/mipssim.cc:647-666 | the loop with its arithmetic shift and early exit multiplies the unsigned values |
| Multiply.NegatePair | machine/mipssim.cc:670-676 | the two's complement of the double word |
| Instructions.Decode | machine/mipssim.cc:581-616 | every field names a register |
| Instructions.DecodeRegister | machine/mipssim.cc:581-600 | a word put together from its fields in register format decodes to those fields |
| Instructions.DecodeImmediate | machine/mipssim.cc:584-593 | so does one in immediate format, the immediate as the signed number its 16 bits stand for |
| Instructions.DecodeJump | machine/mipssim.cc:587-598 | so does a jump, its target 26 bits unsigned |
| Instructions.ArithmeticExact | machine/mipssim.cc:119-137 | ADD, ADDI and SUB give the signed result, and trap exactly when it does not fit in a word |
| Instructions.ExtendsRight | machine/mipssim.cc:225-255 | LB and LH extend the sign, LBU and LHU do not |
| Instructions.UnusedOperands | machine/mipssim.cc:117-547 | an operand an opcode does not use makes no difference to what it does |
| Processor.ActShape | machine/mipssim.cc:117-547 | an instruction writes HI, LO and its target register at once, and nothing else |
| Processor.LoadIsDelayed | machine/mipssim.cc:262-272 | a load leaves the registers as they were, but for an older pending load, and is itself left pending |
| Processor.PendingArrives | machine/mipssim.cc:549-574 | once the next instruction completes, the pending load is in its register and the program counters have moved on |
| Processor.AttemptFaultsOrRuns | machine/mipssim.cc:89-559 | an attempt faults having only applied the pending load and made one page valid, or does what it would with every page in place |
| Processor.FaultProgress | machine/machine.cc:96-105 | each fault makes one more page valid for good, so retries end |
| Processor.FaultFirst | machine/mipssim.cc:569-574 | applying the pending load first is invisible to an instruction that does not touch its register |
| Processor.RestartExact | machine/mipssim.cc:89-574 | an instruction that does not touch the register of the pending load ends, after however many faults, with the registers, program counters, memory and outcome of direct execution |
| Processor.PerformReady | machine/mipssim.cc:569-574 | register 0 stays zero and a pending load names a general register, whatever the instruction |
| Architecture.Fetches | machine/mipssim.cc:89-99 | the instruction carried out is the word at PC if PC is aligned, inside the space and on a valid page, else the exception or fault |
| Architecture.Decodes | machine/mipssim.cc:581-616 | a word put together from the code and fields of any instruction decodes to it |
| Architecture.CodeGives | machine/mipssim.h:117-150 | each instruction has the code of the two tables |
| Architecture.CodeTaken | machine/mipssim.h:117-150 | a code decodes to an instruction that has one only if it is that instruction's |
| Architecture.Branches | machine/mipssim.cc:155-187 | after each branch PC is the delay slot and NEXT_PC four times the signed immediate from it if and only if the signed relation holds, else straight on; BGEZAL and BLTZAL leave the return address in register 31 |
| Architecture.JumpsLand | machine/mipssim.cc:213-223 | where J, JAL, JR and JALR go and what JAL and JALR leave in which register |
| Architecture.Calculates | machine/mipssim.cc:119-538 | the value each arithmetic, logic, shift, comparison and immediate instruction leaves in its register, in terms of signed and unsigned numbers; ADD, ADDI and SUB trap exactly when the signed result does not fit |
| Architecture.HiLoMoves | machine/mipssim.cc:339-353 | MFHI, MFLO, MTHI and MTLO move a word |
| Architecture.Multiplies | machine/mipssim.cc:355-363 | MULT and MULTU leave the 64-bit product of the signed and of the unsigned operands |
| Architecture.DividesOut | machine/mipssim.cc:189-211 | DIV and DIVU leave quotient and remainder, rounded toward zero, or zeros for a divisor of 0 |
| Architecture.Traps | machine/mipssim.cc:528-543 | system calls and illegal instructions trap, with the pending load applied and PC where it was |
| Architecture.Loads | machine/mipssim.cc:225-337 | each load leaves its bytes, extended as its opcode says, pending for rt if and only if the access is aligned, inside and on a valid page; else the exception or fault, or the simulator's end for the two unaligned loads |
| Architecture.Saves | machine/mipssim.cc:377-526 | each store changes exactly its bytes of memory if and only if the access is aligned, inside, on a valid page that is not read-only; else the exception or fault |
| Architecture.StrikeApplies | machine/interrupt.cc:321-325 | an interrupt between instructions applies the pending load and changes no other register |
| Restarts.HarmlessExact | machine/mipssim.cc:117-574 | an instruction ends the same with the pending load applied first if and only if its writes, its jump, its trap and memory's answers come out the same |
| Restarts.RestartIff | machine/mipssim.cc:89-574 | for every instruction, register file and memory: fault and retry equals direct execution if and only if the instruction does not fault or cannot tell |
| Restarts.ComputesHarmless | machine/mipssim.cc:119-538 | arithmetic, logic and shifts cannot tell if and only if both overflow, or neither does and the target is 0 or gets what the delay slot would have left in it |
| Restarts.JumpsHarmless | machine/mipssim.cc:155-223 | jumps and branches, if and only if they go the same way and a pending link register holds the same |
| Restarts.MoveFromHarmless | machine/mipssim.cc:339-345 | MFHI and MFLO, if and only if the target is 0, not pending, or pending with the same value |
| Restarts.HiLoHarmless | machine/mipssim.cc:189-211 | the others on HI and LO, if and only if they compute the same |
| Restarts.SelfDifferenceHarmless | machine/mipssim.cc:461-463 | SUBU of a register from itself cannot tell, although it reads the pending register |
| Restarts.CleanIsSteady | machine/mipssim.cc:569-574 | an instruction that does not touch the pending register cannot tell |
| Restarts.StruckAfterFault | machine/interrupt.cc:322-325 | an interrupt between a fault and the retry finds no load pending and changes nothing |
| Restarts.ProgramsCannotTell | machine/mipssim.cc:30-43 | a program none of whose instructions can tell runs the same over demand-paged memory, with interrupts between its instructions, as with all of memory present |
| Restarts.ProgramsIff | machine/mipssim.cc:30-43 | no pattern of interrupts shows at any point of the first n instructions if and only if none of them can tell |
| Restarts.ReadingPendingDiffers | machine/mipssim.cc:143-145 | an instruction that reads the pending register and ends differently after a fault |
| Restarts.WritingPendingDiffers | machine/mipssim.cc:139-141 | one that writes it and does |
| Bits.SignsDiffer | machine/mipssim.cc:119-137 | the exclusive-or tests on SIGN_BIT are true exactly when the signs differ |
| Bits.MaskLow | machine/mipssim.cc:225-255 | a mask of ones keeps the remainder by a power of two |
| Bits.SetHigh | machine/mipssim.cc:225-255 | or-ing ones above keeps the low bits and sets the rest |
| Bits.Join | machine/mipssim.cc:305-323 | or-ing low bits to a multiple of a power of two adds them |
| Bits.LogicBits | machine/mipssim.cc:147-153 | and, or and exclusive or, bit by bit |
| Machine.Machine.ApplyDelayedLoad | machine/mipssim.cc:569-574 | the pending load is applied and the next one recorded |
| Machine.Machine.RaiseException | machine/machine.cc:96-105 | the failing address is recorded and the pending load applied |
| Machine.Machine.TakeJump | machine/mipssim.cc:155-223 | branches go four times the signed immediate from the delay slot if and only if their signed relation holds; jumps go to their target or register; a link register is written before rs is read |
| Machine.Machine.ApplyHiLo | machine/mipssim.cc:189-211 | HI and LO instructions, the multiplications by the shift-and-add loop |
| Machine.Machine.ReadMem | machine/translate.cc:83-116 | the flat memory's answer from the paged one, with the exception raised if there is no value; other programs' memories stay |
| Machine.Machine.LoadMemory | machine/mipssim.cc:225-337 | the loads over paged memory, with their alignment tests |
| Machine.Machine.SaveMemory | machine/mipssim.cc:465-526 | the stores, read-modify-write included |
| Machine.Widen | machine/mipssim.cc:225-337 | the masks and or-ings of the loads give the value extended as its opcode says |
| Machine.Merge | machine/mipssim.cc:471-526 | the masks and shifts of SWL and SWR give the merged word |
| Machine.Calculate | machine/mipssim.cc:119-538 | the register and value of each opcode; the sign-bit tests find overflow exactly when the signed result does not fit in a word |
| Machine.Machine.ComputeValue | machine/mipssim.cc:119-538 | the instructions that write one register take the step of the value model, trap or value |
| Machine.Machine.OneInstruction | machine/mipssim.cc:89-559 | one call over the VMManager's memory is one attempt on the program's flat memory, and leaves every other program's |
| Machine.Machine.RunInstruction | machine/mipssim.cc:37-42 | the retry loop ends, interrupts firing before the instruction and between attempts or not, with the result of the value model |
| Multiprogramming.TurnMidway | machine/mipssim.cc:37-42 | one turn of Run leaves a program after its next instruction, or at it with a page more |
| Multiprogramming.AlwaysMidway | machine/mipssim.cc:30-43 | after any turns and interrupts a program is where n of its instructions leave it on flat memory, or has begun the next; every turn ends an instruction or brings in a page |
| Multiprogramming.EachAlone | threads/scheduler.cc:90-135 | in any schedule a program is changed by its own turns only |
| Multiprogramming.Multiprogrammed | threads/scheduler.cc:90-135 | so after any schedule of several programs over shared frames each is where its own instructions on its own flat memory leave it |
| Multiprogramming.Computer.SwitchTo | threads/thread.cc:302-323 | saving one program's registers and loading another's changes no program |
| Multiprogramming.Computer.Start | userprog/addrspace.cc:218-240 | a loaded program joins the others |
| Multiprogramming.Computer.TakeTurn | machine/mipssim.cc:37-42 | the machine and the VMManager take one turn of one program |
| Multiprogramming.Computer.Run | threads/scheduler.cc:90-135 | and any schedule of turns |
| Threads.DispatchOrderly | threads/scheduler.cc:70-106 | dispatching the head of the ready list keeps every thread in one place and the order of service |
| Threads.SleepOrderly | threads/thread.cc:215-230 | so does going to sleep on a queue |
| Threads.WakeOrderly | threads/scheduler.cc:53-60 | so does waking the head of a queue |
| Threads.YieldOrderly | threads/thread.cc:178-194 | so does yielding: the head of the ready list runs and the yielder goes to its end, or nothing happens when none is ready |
| Threads.ForkOrderly | threads/thread.cc:91-103 | so does forking |
| Threads.FinishOrderly | threads/thread.cc:147-158 | so does finishing |
| Synchronization.TryPSound | threads/synch.cc:62-73 | P keeps the invariant, at its start or on the way back from Sleep |
| Synchronization.VSound | threads/synch.cc:83-93 | V keeps it |
| Synchronization.TryAcquireSound | threads/synch.cc:112-122 | Acquire keeps it |
| Synchronization.ReleaseSound | threads/synch.cc:124-138 | Release keeps it, by the owner or by another |
| Synchronization.WaitSound | threads/synch.cc:149-159 | Wait keeps it up to its Sleep |
| KernelRuns.ResumeWait | threads/synch.cc:155-158 | so does coming back from Sleep in Wait, with interrupts enabled and the lock yet to be got |
| Synchronization.SignalSound | threads/synch.cc:161-174 | Signal keeps it |
| Synchronization.BroadcastWakesAll | threads/synch.cc:176-186 | Broadcast by the owner empties the condition's queue, by another does nothing |
| Synchronization.BroadcastSound | threads/synch.cc:176-186 | Broadcast keeps it |
| Synchronization.BlockWakes | threads/synch.cc:199-208 | the arrival that completes a group keeps it |
| Synchronization.BlockSleeps | threads/synch.cc:209-213 | an arrival that does not keeps it |
| Synchronization.WakeOneEffect | threads/synch.cc:87-89 | the head of the queue, and it alone, is made ready |
| Synchronization.SleepEffect | threads/synch.cc:66-67 | the running thread goes to the end of the queue |
| KernelFrame.PEffect | threads/synch.cc:62-73 | P takes one from a positive value and sleeps on zero, and touches no other object |
| KernelFrame.VEffect | threads/synch.cc:83-93 | V adds one to the value and touches no other object |
| KernelFrame.AcquireEffect | threads/synch.cc:112-122 | Acquire takes a lock that is free or the thread's own, and sleeps on another's |
| KernelFrame.ReleaseEffect | threads/synch.cc:124-138 | Release by the owner frees the lock and changes what no thread is doing |
| KernelFrame.StepElsewhere | threads/synch.cc:62-215 | a step that does not involve an object leaves it, its queue and its woken threads alone |
| KernelRuns.StepKeeps | threads/synch.cc:62-215 | every step of any thread or handler keeps the kernel's invariant, a yield or handler between Wait's Sleep and its Acquire included |
| KernelRuns.OnePlace | threads/scheduler.cc:53-106 | in every reachable state a live thread is running, on the ready list once, or on one queue once, and a dead one nowhere |
| KernelRuns.ServedInOrder | threads/scheduler.cc:53-74 | threads are dispatched in the order in which they became ready |
| KernelRuns.SemaphoreConserves | threads/synch.cc:62-93 | value is the initial value plus completed V less completed P, and never negative |
| KernelRuns.NoLostWakeup | threads/synch.cc:62-93 | while threads wait, the value is at most the number of woken waiters that have not run again |
| KernelRuns.LockExcludes | threads/synch.cc:112-138 | at most one thread is between Acquire and its Release, the owner |
| KernelRuns.LockNotStranded | threads/synch.cc:112-138 | waiters have an owner or a woken waiter ahead of them |
| KernelRuns.OnlyOwnerFrees | threads/synch.cc:124-159 | an owned lock changes hands only by its owner's Release or Wait |
| KernelRuns.BarrierWholeGroups | threads/synch.cc:199-215 | the queue is blockCount long and shorter than a group, and departures never exceed the whole groups arrived |
| KernelRuns.LeavesWithGroup | threads/synch.cc:199-215 | a thread leaves only when all of its group has arrived |
| KernelEffects.StepEffect | threads/synch.cc:62-215 | what every step of every operation leaves: who runs, the ready list, every queue, what each thread is doing, what each object holds |
| KernelEffects.TurnComes | threads/thread.cc:178-194 | the n-th thread of the ready list runs after exactly n yields, the yielders queued behind it in turn |
| KernelEffects.RoundRobin | threads/thread.cc:178-194 | after as many yields as there are threads, running thread and ready list are as they were |
| KernelEffects.DispatchLogged | threads/scheduler.cc:70-106 | the log of dispatches gains the thread that has come to run, when the processor is given away and only then |
| KernelEffects.TurnIsKept | threads/scheduler.cc:53-106 | in every run the thread at place i of the ready list gets the processor at the i-th dispatch from now |
| SynchList.LinearizableFifo | threads/synchlist.cc:53-82 | over every interleaving, what was removed followed by what is there is what was appended |
| SynchList.TakesOldest | threads/synchlist.cc:70-82 | Remove returns the oldest item not yet removed |
| SynchList.AppendsItsItem | threads/synchlist.cc:53-60 | over every interleaving, what a thread puts on the list is the item its own Append was called with, and it puts it there once |
| SynchList.RemovesItsItem | threads/synchlist.cc:70-82 | what Remove returns is the one item its thread has taken since the call |
| SynchList.HeldWhileInside | threads/synchlist.cc:53-82 | the lock is held exactly by the thread that is past Acquire and has not returned |
| SynchList.OneInside | threads/synchlist.cc:53-82 | no two threads are inside the list's operations |
| SynchList.WaitersCovered | threads/synchlist.cc:53-82 | while a remover waits, the items number at most the removers signalled and not back, one more while a signal is due |
| SynchList.MoveKeeps | threads/synchlist.cc:53-82 | every step of the list's operations, and of foreign code, keeps the list's invariant |
| SynchList.WokenKeeps | threads/synch.cc:155-158 | a remover back from Sleep in Wait is not inside again before it has the lock |
| SynchDisk.NeverActiveAtRequest | machine/disk.cc:115-153 | a request finds the disk inactive and its sector in range: the assertions hold |
| SynchDisk.OneOutstanding | filesys/synchdisk.cc:72-121 | while the disk is active exactly one request is out, and its thread holds the lock |
| SynchDisk.ReadsLatestWrite | filesys/synchdisk.cc:72-109 | over every interleaving, a thread that is about to return has been served what it asked for: WriteSector has written its data to its sector, once; ReadSector has the last thing written to its sector and has written nothing |
| SynchDisk.HeldWhileServing | filesys/synchdisk.cc:72-109 | the lock is held exactly by the thread whose request is being served |
| SynchDisk.InterruptWakes | filesys/synchdisk.cc:117-121 | the completion interrupt leaves the disk inactive, one completion in the semaphore and nobody asleep on it |
| SynchDisk.MoveKeeps | filesys/synchdisk.cc:72-121 | every step of requests, interrupt and foreign code keeps the protocol's invariant |
| SynchDisk.InterruptKeeps | machine/disk.cc:161-166 | the completion interrupt keeps it |
| PostOffice.DeliveredInOrder | network/post.cc:99-139 | for each sender and mailbox what is received is the beginning of what was sent there and not lost: unchanged, once, in order |
| PostOffice.NothingStuck | network/post.cc:221-246 | from every state of the network, steps of one machine alone lead to its mailboxes having given out, for each sender and mailbox, all that was sent there and not lost |
| PostOffice.ReceiveTakesOldest | network/post.cc:308-316 | Receive takes the oldest letter of its mailbox and leaves the others |
| PostOffice.InboxAndToken | network/post.cc:221-246 | the inbox is full exactly when one messageAvailable token is out |
| PostOffice.ReceiveKeeps | machine/network.cc:130-139 | the worker never finds the inbox empty |
| PostOffice.PollKeeps | machine/network.cc:60-87 | the poll fills an empty inbox from the wire, with one token, and keeps the order |
| PostOffice.SendKeeps | machine/network.cc:103-127 | a packet sent or lost keeps what senders and receivers know of each other in step |
| PostOffice.ParseEncode | network/post.cc:233-280 | the mail read back from the buffer is the mail sent, whatever stale bytes follow |
| PostRooms.Refines | network/post.cc:221-292 | every step that threads, worker and interrupts of a machine take with the network or the mail is a step of the mail protocol |
| PostRooms.MoveKeeps | network/post.cc:221-346 | every step of any machine keeps kernels, network and protocol in agreement |
| PostRooms.RoomsDeliver | network/post.cc:99-139 | whatever threads and interrupts do, mail from each sender to each mailbox arrives unchanged, once and in order |
| PostRooms.TransmitsWhatWasAsked | network/post.cc:262-292 | over every run, what a thread hands to the network is the mail its own Send was called with, for the machine it named, and for the first time |
| PostRooms.SendsOnce | network/post.cc:262-292 | a thread that returns from Send has handed over its mail once and nothing else |
| PostRooms.NeverBusyAtSend | machine/network.cc:103-113 | Network::Send is never called while a packet is under way, which is what its assertion on sendBusy is for |
| PostRooms.WorkerFindsPacket | network/post.cc:228-231 | the postal worker past P finds a packet |
| Interrupts.ClockRun | machine/interrupt.cc:150-336 | over every run, whatever the handlers schedule: sorted, conserved, none early, times never going down, ticks adding up |
| Deadlines.EveryRequestKept | machine/interrupt.cc:264-336 | over every run: each interrupt asked for, k ticks after the time of the call, by a device or by a handler as it ran, is pending or has fired, once, and nothing else is or has; each fired at or after its time |
| Deadlines.NotBeforeItsTime | machine/interrupt.cc:290-313 | an interrupt asked for k ticks ahead at time T has not fired while the clock is below T + k |
| Deadlines.FiredByTick | machine/interrupt.cc:150-171 | a tick of a busy machine that ends at or past T + k leaves it fired |
| Deadlines.DeviceIsServed | machine/interrupt.cc:264-275 | both, for any call of Schedule at any point of any run |
| Deadlines.OnlyLoneTimerLate | machine/interrupt.cc:150-234 | a tick or an idle wait leaves a request late if and only if an idle machine comes down to its timer alone |
| Deadlines.IdleServes | machine/interrupt.cc:210-224 | idling moves the clock to the next interrupt, counts that time as idle and serves what is then due, or reports that there is nothing but a lone timer to wait for |
| Deadlines.TickLength | machine/interrupt.cc:155-162 | a tick is ten in system mode and one otherwise, and goes to that counter |
| Deadlines.TimeIsCounted | machine/interrupt.cc:155-162 | over every run system time is ten for every tick in system mode, user time one for every other, and the rest of the total is idle |
| Interrupts.CheckGood | machine/interrupt.cc:290-336 | a check fires at most the first pending interrupt, not before its time, and conserves the rest |
| Interrupts.CheckProgress | machine/interrupt.cc:169-170 | each turn of the drain loop leaves fewer interrupts due, so it ends |
| Interrupts.DrainGood | machine/interrupt.cc:169-170 | the drain leaves nothing due, save an idle machine's lone timer |
| Interrupts.BusyDrainLeavesNothing | machine/interrupt.cc:150-179 | on a machine that is not idle the drain leaves nothing due |
| Interrupts.DrainLeavesTimer | machine/interrupt.cc:169-170 | a drain leaves something due if and only if the machine is idle, all that is pending is due, a timer is last and no handler before it schedules anything |
| Interrupts.IdleDrainLeavesTimer | machine/interrupt.cc:315-319 | an idle machine leaves a due timer that is alone in the list |
| Interrupts.OneTickGood | machine/interrupt.cc:150-179 | a tick advances the clock and drains |
| Interrupts.IdleGood | machine/interrupt.cc:210-234 | idling moves the clock to the next interrupt, fires it and drains |
| Interrupts.ScheduleGood | machine/interrupt.cc:264-275 | scheduling keeps the list sorted, accounts for the entry and keeps everything else every run keeps |
| Interrupts.Interrupt.ScheduleInterrupt | machine/interrupt.cc:264-275 | the linked list gains the interrupt, due fromNow ticks after the clock, in its place in the order of times, and loses none; Deadlines.DeviceIsServed is what the caller may count on |
| Interrupts.Interrupt.CheckDue | machine/interrupt.cc:290-336 | removing the head of the linked list, putting it back or calling its handler is the checking step |
| Interrupts.Interrupt.DrainDue | machine/interrupt.cc:169-170 | the loop ends with the state of the recursive drain |
| Interrupts.Interrupt.TickOnce | machine/interrupt.cc:150-171 | the object takes the tick |
| Interrupts.Interrupt.IdleOnce | machine/interrupt.cc:210-224 | the object idles |
| Lists.List.Append | threads/list.cc:76-88 | the linked list gains the item at its end |
| Lists.List.SortedInsert | threads/list.cc:178-202 | the item is linked in before the first element with a larger key |
| Lists.List.SortedRemove | threads/list.cc:217-237 | the head and its key, or nothing |
| Lists.List.IsEmpty | threads/list.cc:154-161 | true exactly when the list holds nothing |
| Lists.InsertKeepsSorted | threads/list.cc:178-202 | insertion keeps a list sorted |
| Lists.InsertConserves | threads/list.cc:178-202 | insertion adds the entry once and loses none |
| FileHeaders.FileHeader.Allocate | filesys/filehdr.cc:41-90 | refused exactly for a bad size or too few clear bits, else the sectors are those that successive Finds return, laid out direct first and then block by block |
| FileHeaders.FileHeader.TakeSectors | filesys/filehdr.cc:54-87 | the loop fills the header in the order of the Finds |
| FileHeaders.FillBlock | filesys/IndirectPointerBlock.cc:63-66 | a pointer block gets the next sectors, one by one |
| FileHeaders.TakenAreFree | userprog/bitmap.cc:94-103 | with enough clear bits, k Finds give k distinct sectors that were free, and mark just those |
| FileHeaders.GoodAllocation | filesys/filehdr.cc:51-84 | the allocation is good exactly when there was room for data and pointer blocks |
| FileHeaders.NoRoomForPointers | filesys/filehdr.cc:48-84 | a free map on which Allocate succeeds and a data sector is -1 |
| FileHeaders.DataSectorsDistinct | filesys/filehdr.cc:60-87 | different parts of the file are in different sectors |
| FileHeaders.RightUpTo34 | filesys/filehdr.cc:221-240 | ByteToSector finds every byte exactly when the file has at most 34 sectors |
| FileHeaders.LooksWrong | filesys/filehdr.cc:233-238 | in a longer file the first byte past the direct sectors is looked for in the wrong place |
| FileHeaders.ThirtyFiveSectors | filesys/filehdr.cc:233-238 | a header of 35 sectors whose first byte past the direct ones is looked for in the wrong place |
| OpenFiles.AllocatedIsOk | filesys/filehdr.cc:41-90 | an allocated file of at most 34 sectors is one that can be read and written |
| OpenFiles.ReadAt | filesys/openfile.cc:117-147 | returns 0 and reads nothing, or fills the buffer with exactly the range of the file |
| OpenFiles.WriteAt | filesys/openfile.cc:176-205 | a write inside the file's sectors replaces exactly that range of its bytes, and changes no other sector of the disk |
| OpenFiles.FillBuffer | filesys/openfile.cc:187-194 | the first and the last sector are read in where they will be partly overwritten |
| OpenFiles.BufferIsRight | filesys/openfile.cc:187-202 | the buffer written back whole changes only the range |
| OpenFiles.WriteSectors | filesys/openfile.cc:200-202 | the loop writes the buffer to the file's sectors and to no others |
| OpenFiles.AllocatedApart | filesys/filehdr.cc:41-90 | files allocated one after the other share no sector |
| OpenFiles.OtherFileUnchanged | filesys/openfile.cc:176-205 | so writing one leaves every byte of the other |

## Left out

- vm/randomReplacement.cc: its index is never initialised and its remainder need not be a frame number; the paging theorems hold for any pick, the queue classes are FIFO and LRU.
- Fork's CopyAddrSpace: it copies the swap page, not a dirty frame.
- Kernel buffer copies in system calls: they write frames without the dirty bit and load pages whose valid bit is off; the coherence runs are user accesses, program loading, and creation and destruction of spaces.
- The TLB branch of Translate, and builds without the VM, USER_PROGRAM or FILESYS options.
- File growth and removal: ExtendFile, Deallocate, WriteAt past the file's sectors, and the directory.
- System calls, processes, join and open-file tables.
- Conformance of opcodes to the MIPS manual: instructions are modelled as the simulator executes them.
- Division of the most negative word by -1: undefined in C; the model wraps.
- Unaligned LWL, LWR, SWL and SWR: the simulator's assertion ends it, and so does the model.
- Stability among interrupts with equal times, and the yield at the end of OneTick.
- Disk seek and latency, statistics printing, console, sockets, UNIX wrappers, the assembly context switch, COFF tools, the bin/ interpreter: input and output, foreign code, or only easy members.
- Update in place of semaphores, locks, conditions, barriers, the synchronized list, the disk and the post office: their operations lose the processor in their midst, so each is a step machine on values; queues are sequences there, and the linked list is the one of the pending interrupts.
- The machine status, level and inHandler flags of interrupts: a handler step is allowed only where the source runs handlers with interrupts off.
- Multiprogramming.Computer.Run: a program stops at its first trap; what system calls do to a program is not modelled, and which thread runs next is a parameter.
- PostOffice.SendKeeps: sends may interleave in any order, more than the source allows; PostRooms has sendLock and messageSent.
- PostRooms.RoomsDeliver: a mailbox is taken as the first-in first-out queue that SynchList proves it to be, with Put and Get one step each.
- PagedMachine.ReadFile: the range must lie in the file; a short read would leave old bytes in the buffer.
- OpenFiles.ReadAt: the range must lie in the file's sectors, as nothing in the source checks it.
- OpenFiles.WriteAt: an empty write to an empty file, which touches a sector the file does not have, is excluded.
- VmManager.VMManager.ClearEntry: the entry goes with its swap page; the source frees the table after the loop.
- Replacement.LruVictim: for runs in which the code keeps the order; LruRun says which, LruOnceFull what holds in all.
