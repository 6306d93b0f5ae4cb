# A verified model of the pComputer and of pseudOS

The repository holds a small RISC-V computer in Verilog, a microkernel in C that runs on it, and a benchmark.
This project models the parts of them whose correctness depends on reasoning across many steps, and proves what
they are for. Verilog modules are clocked objects: a class with the module's registers and a `Tick` method, tied to
a step function over register values. C code keeps its form too: arrays and heap nodes changed in place by loops,
each method proved against a function of the state before it. Registers and words wrap where the hardware's do.

`dafny verify dfyconfig.toml` checks everything.

## The parts

**Multiply/divide unit** (`Rv32m.dfy`, integers in `Words.dfy`). Shift-add multiplication and restoring division, with
the invariants of both loops. The unit meets sections 7.1 and 7.2 of the RISC-V Unprivileged ISA (version 20191213) on
all operands except a family of signed divisions, which `Exact` describes and `OperationCorrect` proves to be exactly
the failing ones: operands of different sign are rounded down and then corrected by one, and the correction is wrong
when the division leaves no remainder.

**Write-back cache** (`Cache.dfy`, `CacheRefinement.dfy`). The cache and a burst memory below it behave as one flat
memory. The environment's side is stated, not assumed silently: the host holds the address until the cache is ready
and makes no request before the tags are swept; the burst memory raises no ready while a request is raised, takes a
stored word no sooner than two clocks after its ready pulse, and keeps ready up for one more clock after the last
fetched word. Pulses may otherwise come with any gaps.

**Core** (`Isa.dfy`, `Core.dfy`, `Encoding.dfy`, numbers of bit vectors in `Bits.dfy`, `CoreDecode.dfy`, `CoreMemory.dfy`, `CoreRefinement.dfy`). `Isa.dfy` is a reference
written from sections 2.4 to 2.6 and chapters 7 and 9 of the standard, on bytes and whole instructions. The twelve-phase
machine refines it for every sequence of memory and unit delays, loads and stores of bytes and halves included (a store
of these reads, merges and writes), and every transfer to a trap handler and back. Memory promises that while the
address is held, a ready word stays on the bus. CSR instructions read whatever word the trap unit offers. Core and
reference take the fields of an instruction alike, so `Encoding.dfy` says independently which they are: an assembler made of
integer sums, as the standard lays the fields out, whose words the decoder takes back for all operands and the other way
round, and the numbers of the registers that the core's ports name.

**The machine** (`Machine.dfy`, `MachineProgress.dfy`, `InterruptedRun.dfy`, `Wiring.dfy`). Core, multiply/divide unit, cache
and burst memory wired together: the promises the core needs of memory and unit are discharged by the cache and the unit themselves.
The machine is the reference with multiplication and division as the unit does them, whatever the operands; where no
division is inexact that is the standard's. From a fetch, the next one comes within 435 clocks, those not counted in which
the burst memory stalls. With trap and interrupt unit joined on, an interrupt is a transfer from the interrupted
instruction to its handler and back, and if the handler restores registers and memory, the run goes on as though there had
been none.

**Interrupts** (`Interrupts.dfy`, `InterruptProgress.dfy`, `TrapRegisters.dfy`). Interrupt unit, trap unit and the real core,
with every registered delay. Every request issued gets one reply pulse and one trap, in order, and the trap's cause is that of
its request; and from the trap to the return of its handler no second interrupt is taken, whatever the handler does short of
raising an exception or rewriting the saved state, and the core then fetches the interrupted instruction with its enable bit
restored. Nor does a trap fail to come: a request issued while the standard's places of mstatus and mie let it through raises
the line within three clocks, and its trap is on record by the second decode, in the whole machine whatever the burst memory
does. What CSR writes, traps and returns leave in each place of a register is stated in digits. The software interrupt of the
trap unit can never be pending: the bit it tests (4 of mip) is not the bit software can write (3).

**HDMI** (`Tmds.dfy`, `Link.dfy`, `Packets.dfy`, `Lfsr.dfy`). The two independent TMDS encoders send the same words on every
stream; the accumulator is the running disparity and never wraps; streams decode uniquely. The three channels together, with
guard words and data islands, are received back by watching channel 2, for every frame scanned as the transmitter lays it out.
Packets carry the check bits of their blocks. The theory of the shift-register codes (linear, reversible, burst-detecting) is shared with the benchmark's CRC.

**Microkernel** (`Kernel.dfy` and the files beginning with `Kernel`). Rendezvous messages with sender queues, and the
scheduler. The table is an array of records; links between slots are slot numbers. Two slips in the message code are
treated in `KernelSlips.dfy`: process.c:334 tests the receiver's link instead of the walking pointer's, and process.c:435-436
moves queue heads instead of links. There the code is modelled as written; it is proved exactly when it does what the
comments at process.c:331, 408 and 431 intend, and that otherwise no queues at all describe the table it leaves. Everything
else is proved of the intended walk and unlink. Runs assume one process that computes and never calls the kernel
(`proc1` to `proc3` are such); `ScheduleKeepsIff` shows why: with nobody ready the scheduler would resume a blocked process.
Every assertion of process.c:258-473 stands in the methods of `KernelCode.dfy` where the code has it, on the table's fields,
so none of them can fail; the two that check the caller's own choice of target are met by what `Permitted` asks of callers.

**List benchmark** (`ListSort.dfy`, `ListCode.dfy`, `ListData.dfy`, `ListValues.dfy`, `ListBench.dfy`). The in-place bottom-up merge sort,
for comparisons that may have side effects; and the benchmark's promise that the list comes back as it was.

**Storage** (`Storage.dfy`, `Fat.dfy`) and **loader** (`Loader.dfy`). Byte ranges read through a cache of one sector; a file
read through the chain of clusters in the bytes of the table; and a segment moved up over itself before or after relocation,
with every word of memory after loading given in terms of the file.

## Where code and documentation differ

- Signed division with operands of different sign: see above; the module's header calls the unit "dirty but seems working".
- The clear instructions for CSRs (CSRRC, CSRRCI) keep the bits they name and clear the others. `CsrUpdateIff` says that they
  are right exactly when the CSR read as zero; swap and set always are.
- An environment call resumes eight bytes after the call, past the instruction behind it: the core already hands the trap unit
  the address after the call (riscv-multicyc.v:425-430), and the handler adds four once more (syscall.c:36-37).
  `EnvironmentCall.CallResumesEightOn` proves it for every call and every run until the caller resumes.
- `FAT32_Read` takes only entries from 0x0fffffff on for the end of a chain. `StandardMarkRefused` shows a file whose chain ends
  in 0x0ffffff8 refused; of the files ended by any mark from 0x0ffffff8 to 0x0fffffff exactly those with consecutive clusters
  and the mark 0x0fffffff are read (`MarkedContiguousIff`, `MarkedReadResult`). The code does not mask the four reserved bits
  of an entry.
- A read from beyond the end of a file is not refused. It returns a negative size and moves nothing in the common case;
  `PastTheEnd` gives the exact conditions for both, `PastTheEndPositive` and `PastTheEndMoves` inputs that fail them. Within the
  file, a range that wraps past 32 bits can escape the check against its size (`ReadSizeExact`, `ReadSizeWraps`).
- The loop meant to clear .bss starts too high: `BssClearedIff` says when it clears what it should, and `MoveIsRightIff` when it
  destroys part of the file image before that is moved.
- `new_process_from_elf_in_memory` writes in front of the table when it is full, and otherwise clears the queue of the slot it
  takes. `NewProcessKeepsIff` says exactly when it is harmless, `CreationCutsQueue` shows a safe state in which it is not.
  Creation happens before the first schedule, where `BootWithProcesses` shows that up to 60 processes are.

## Model

| member | source | states |
|---|---|---|
| `Rv32m.Unit.Tick` | pCPU/src/rtl/rv32m.v:38-97 | every register after a clock edge, with or without `start`, for all old register values |
| `Rv32m.Unit.Compute` | pCPU/src/rtl/rv32m.v:27-98 | started and clocked until `finish`, the unit answers what the ISA requires if and only if the operands are exact; `div0` is raised exactly for a division by zero |
| `Rv32m.OperationCorrect` | pCPU/src/rtl/rv32m.v:33-98 | for every operation and all operands: `finish` stays low for the latency, then rises and stays, with the ISA's result exactly on the exact operands |
| `Rv32m.MulRun` | pCPU/src/rtl/rv32m.v:69-78 | invariant of the multiply loop: shifted multiplicand, remaining multiplier, and the partial product modulo 2^64 |
| `Rv32m.MulCorrect` | pCPU/src/rtl/rv32m.v:40-43 | MUL, MULH, MULHSU and MULHU give the required half of the exact product for all operands |
| `Rv32m.RestoringLoop` | pCPU/src/rtl/rv32m.v:80-87 | invariant of the divide loop: remainder below the divisor, quotient digits collected, the top bit never set early |
| `Rv32m.DivideUnsigned` | pCPU/src/rtl/rv32m.v:54-57 | the loop leaves quotient and remainder of unsigned operands |
| `Rv32m.DivideSameSign` | pCPU/src/rtl/rv32m.v:44-57 | DIVU and REMU, and DIV and REM of equal signs including -2^31 / -1, give the required word |
| `Rv32m.DivideByZeroReadout` | pCPU/src/rtl/rv32m.v:63-65 | division by zero: when the answer is the required all-ones or dividend, and when not |
| `Rv32m.DivideMixedSign` | pCPU/src/rtl/rv32m.v:88-93 | operands of different sign, dividend not zero: the answer is right exactly on the stated family |
| `Rv32m.DivideZero` | pCPU/src/rtl/rv32m.v:88-93 | zero divided by a nonzero number: the answer is right exactly on the stated family |
| `Rv32m.MixedSignCounterexample` | pCPU/src/rtl/rv32m.v:88-93 | 20 / -4 comes out wrong |
| `Rv32m.DeliveredIsResult` | pCPU/src/rtl/rv32m.v:38-98 | the word an operation delivers depends on selector and operands alone, not on what the unit held before, and stays for 128 clocks |
| `Rv32m.DeliveredIff` | pCPU/src/rtl/rv32m.v:38-98 | that word is the ISA's if and only if the operands are exact |
| `Rv32m.ReferenceDivides` | pCPU/src/rtl/rv32m.v:9-10 | the reference quotient and remainder satisfy the division identity with a remainder smaller than the divisor and of the dividend's sign |
| `Cache.CacheUnit.Tick` | pCPU/src/rtl/cache_cpu.v:80-253 | controller, tag array, sweep counter and block RAM after a clock, changed in place |
| `Cache.CacheUnit.constructor` | pCPU/src/rtl/cache_cpu.v:61-61 | the state in which the cache powers up |
| `CacheRefinement.SystemKeepsInv` | pCPU/src/rtl/cache_cpu.v:154-231 | one clock with any allowed stimulus keeps: resident words and lower words make up the flat memory, clean lines equal memory, and the burst counters are in step with the burst |
| `CacheRefinement.WbStore` | pCPU/src/rtl/cache_cpu.v:197-213 | write-back stores the old words of the line in order, for any spacing of the ready pulses |
| `CacheRefinement.LdFetch` | pCPU/src/rtl/cache_cpu.v:214-229 | load fills the new words of the line in order, for any spacing of the ready pulses |
| `CacheRefinement.CacheIsFlatMemory` | pCPU/src/rtl/cache_cpu.v:63-253 | over every allowed run cache and burst memory are the flat memory made by the accepted writes, and a finished read shows its word |
| `CacheRefinement.AtRestNothingLost` | pCPU/src/rtl/cache_cpu.v:72-104 | when the cache is idle, lookup gives the flat memory at every address: nothing is lost by eviction |
| `CacheRefinement.RequestsWhenFree` | pCPU/src/rtl/cache_cpu.v:122-130 | the burst memory is asked only when it is free |
| `CacheRefinement.AccessGetsOn` | pCPU/src/rtl/cache_cpu.v:154-231 | every clock in which the burst memory moves brings the access nearer its end, so an access takes a bounded number of them |
| `CacheRefinement.SweepClears` | pCPU/src/rtl/cacheway.v:48-61 | after reset the sweep clears every tag and only then reports done |
| `CacheRefinement.ResetEstablishesInv` | pCPU/src/rtl/cache_cpu.v:155-171 | a swept cache over any memory satisfies the invariant |
| `Core.Cpu.Tick` | pCPU/src/rtl/riscv-multicyc.v:525-661 | every register of the core after a clock edge |
| `Core.Cpu.constructor` | pCPU/src/rtl/riscv-multicyc.v:636-639 | pc 0xf0000000 and the fetch phase out of reset |
| `Encoding.RegisterPorts` | pCPU/src/rtl/riscv-multicyc.v:70-87 | in every clock the operand latches take the registers numbered by bits 19 to 15 and 24 to 20 of the instruction, zero for number 0, store data is the latter, and the register written is the one numbered by bits 11 to 7, none other and never x0 |
| `Encoding.DecodesAssembled` | pCPU/src/rtl/riscv-multicyc.v:195-217 | for every instruction of the reference and all operands that fit, the word that is the sum of opcode, register numbers, selectors and immediate digits times their places decodes to that instruction |
| `Encoding.DecodedIsAssembled` | pCPU/src/rtl/riscv-multicyc.v:195-217 | conversely the word of every instruction decoded is that sum, so immediates and register numbers are those of the standard's formats |
| `Bits.PlusIsSum` | pCPU/src/rtl/alu.v:29-41 | addition of words is addition of unsigned numbers modulo 2^32 |
| `CoreDecode.AluComputes` | pCPU/src/rtl/alu.v:28-72 | each selection computes the reference operation; subtraction and the two comparisons, made from a 33-bit difference and its flags, against signed and unsigned readings |
| `CoreDecode.AluShifts` | pCPU/src/rtl/alu.v:50-55 | in every place, the three shifts show the bit that many places away, the number being the low five bits of the second operand, and zero or the sign where there is no such place |
| `CoreDecode.BranchDecision` | pCPU/src/rtl/riscv-multicyc.v:404-405 | the selected ALU output decides every branch condition of the reference |
| `CoreDecode.DecodeByOpcode` | pCPU/src/rtl/riscv-multicyc.v:195-206 | opcode and selector bits of every instruction the reference decodes |
| `CoreDecode.CsrComputes` | pCPU/src/rtl/riscv-multicyc.v:362-367 | the ALU operation selected for each CSR instruction, on operand and word read |
| `CoreDecode.CsrUpdateIff` | pCPU/src/rtl/riscv-multicyc.v:362-367 | the word made of operand and word read is the standard's if and only if the instruction does not clear bits or the word read is zero |
| `CoreMemory.FetchMirrors` | pCPU/src/rtl/riscv-multicyc.v:649-659 | the word fetched through the byte-swapped bus is the four instruction bytes of the byte-addressed memory |
| `CoreMemory.LoadByteMirrors` | pCPU/src/rtl/riscv-multicyc.v:227-255 | a byte load selects and extends the byte of the byte-addressed memory |
| `CoreMemory.LoadHalfMirrors` | pCPU/src/rtl/riscv-multicyc.v:245-256 | likewise for an aligned half |
| `CoreMemory.StoreByteMirrors` | pCPU/src/rtl/riscv-multicyc.v:227-244 | the merged word changes one byte of the byte-addressed memory and no other |
| `CoreMemory.StoreHalfMirrors` | pCPU/src/rtl/riscv-multicyc.v:245-254 | likewise for an aligned half |
| `CoreRefinement.StepMergeWrite` | pCPU/src/rtl/riscv-multicyc.v:487-511 | the write after a merge performs the byte or half store of the reference |
| `CoreRefinement.StepTrap` | pCPU/src/rtl/riscv-multicyc.v:418-433 | interrupt, exception and return take pc where the trap unit says and change nothing else |
| `CoreRefinement.ExecuteCsr` | pCPU/src/rtl/riscv-multicyc.v:362-367 | the execute clock of a CSR instruction keeps the word the trap unit offers in that clock and makes the word to write of it |
| `CoreRefinement.WbCsr` | pCPU/src/rtl/riscv-multicyc.v:408-411 | write-back puts the word read into the register, writes the CSR port with the word made of it, and completes the instruction |
| `CoreRefinement.ClockRefines` | pCPU/src/rtl/riscv-multicyc.v:307-661 | one clock of the core, in any phase and with any delays, stays inside the current instruction or completes exactly it |
| `CoreRefinement.CoreRefinesIsa` | pCPU/src/rtl/riscv-multicyc.v:307-661 | over every run the core is where the reference is after the retired instructions and transfers, or inside the next |
| `CoreRefinement.AtFetchStatesAgree` | pCPU/src/rtl/riscv-multicyc.v:450-458 | at every fetch pc, each register (x0 reads zero) and each byte of memory are the reference's |
| `CoreRefinement.InstructionGetsOn` | pCPU/src/rtl/riscv-multicyc.v:447-523 | every clock that does not wait brings the next fetch nearer; an instruction takes at most nine of them |
| `CoreRefinement.BusDisciplineKept` | pCPU/src/rtl/riscv-multicyc.v:412-416 | the core holds the address and makes no request until the last one is answered |
| `Machine.ReadyIsCacheReady` | pCPU/src/rtl/cache_cpu.v:64-64 | the ready line the core waits for is the cache's |
| `Machine.UnitDelivers` | pCPU/src/rtl/riscv-multicyc.v:506-509 | when the unit finishes in the core's wait, its word is its function of the operands it was started with, whatever it held before |
| `Machine.SplitIsAlign` | pCPU/src/rtl/cacheway.v:38-40 | cutting an address into tag, index and offset loses the two byte bits and nothing else |
| `Machine.ClockCommutes` | pCPU/src/rtl/cache_cpu.v:63-64 | a clock of core, unit, cache and memory together is, seen from the core, a clock against an ideal memory and unit |
| `Machine.MachineClockRefines` | pCPU/src/rtl/riscv-multicyc.v:307-661 | one clock of the whole machine stays inside the instruction or completes it |
| `Machine.MachineRefines` | pCPU/src/rtl/riscv-multicyc.v:307-661 | over every run, with any burst timing and any interrupts, the whole machine is where the reference is that multiplies and divides as the unit does |
| `Machine.MachineRefinesIsa` | pCPU/src/rtl/riscv-multicyc.v:307-661 | and where the ISA of the standard is, when every division of the run is exact |
| `Machine.MachineAtFetch` | pCPU/src/rtl/cache_cpu.v:63-64 | at every fetch pc and registers are the ISA's, and each byte is found in a resident line or else in the burst memory |
| `Machine.MachineFromReset` | pCPU/src/rtl/cache_cpu.v:155-171 | whatever registers, tags and memory held, after reset and sweep the machine is in the relation with the ISA state of its memory |
| `MachineProgress.MachineGetsOn` | pCPU/src/rtl/riscv-multicyc.v:447-523 | every clock of the whole machine ends at a fetch, or lowers one measure of what is left, or leaves it because the burst memory stalls a waiting core |
| `MachineProgress.EffortIsSpent` | pCPU/src/rtl/riscv-multicyc.v:447-523 | inside an instruction every clock that is not such a stall is one off the measure, and the machine stays in the relation with the instruction's state |
| `MachineProgress.InstructionIsShort` | pCPU/src/rtl/riscv-multicyc.v:447-523 | from a fetch to the next there are at most 435 clocks that are not stalls, whatever the instruction, with an interrupt or without |
| `InterruptedRun.HandlerIsRecorded` | pCPU/src/rtl/riscv-multicyc.v:418-423 | from the interrupt on, the events of a handler run are one transfer to the trap address and then instructions only |
| `InterruptedRun.InterruptReturnsToRun` | pCPU/src/rtl/privilege.v:174-186 | with all units joined, interrupt, handler and return are in the ISA a transfer from the interrupted instruction and back to its address; if the handler restores registers and memory, the machine is again in the relation with the interrupted state |
| `InterruptedRun.InterruptLeavesNoTrace` | pCPU/src/rtl/privilege.v:174-186 | so a run with such an interrupt in it ends where the ISA run of the events before and after it ends, the handler's left out |
| `Wiring.MulDivByNumber` | pCPU/src/rtl/rv32m.v:9-10 | what the ISA asks of the unit for each function number, as products, quotients and remainders of signed and unsigned numbers |
| `Wiring.CsrInstructionWrites` | pCPU/src/rtl/riscv-multicyc.v:408-411 | a clock that writes a CSR changes the one numbered by the upper twelve bits of the instruction, in its writable places, to what the ALU computed, and no other |
| `Wiring.InterruptIsTaken` | pCPU/src/rtl/privilege.v:197-253 | in the whole machine a request issued, enabled in mstatus and mie, with the trap unit idle, has its trap on record with its cause by the second decode, whatever memory and devices do |
| `Interrupts.InterruptUnit.Tick` | pCPU/src/rtl/interrupt_unit.v:46-136 | masks, saved requests, priority and handshake after a clock |
| `Interrupts.ServesLowestKeepsRest` | pCPU/src/rtl/interrupt_unit.v:100-127 | an idle unit issues the saved request of highest priority if there is one; no saved request and no pulse of an enabled line is dropped, and none is invented |
| `Interrupts.TrapUnit.Tick` | pCPU/src/rtl/privilege.v:150-253 | CSRs, delay registers and request machine after a clock |
| `Interrupts.CsrSoftware` | pCPU/src/rtl/privilege.v:84-86 | no CSR traffic changes the bit the software interrupt is taken from |
| `Interrupts.CoreFollows` | pCPU/src/rtl/riscv-multicyc.v:461-516 | the core reaches the interrupt phase exactly from decode with the request up, and leaves it for a fetch |
| `Interrupts.HandshakeKept` | pCPU/src/rtl/privilege.v:197-252 | reply pulses come one clock long, only to a request that is up, and a new request is not confused with the old one |
| `Interrupts.StepKeeps` | pCPU/src/rtl/interrupt_unit.v:105-135 | phases, handshake and counts are kept by every clock of the three machines |
| `Interrupts.OneTrapPerRequest` | pCPU/src/rtl/privilege.v:206-253 | in any run traps <= replies <= traps + 1 and replies <= issues <= replies + 1, and the i-th trap's cause is the i-th request's |
| `Interrupts.TrapSaves` | pCPU/src/rtl/privilege.v:174-179 | the trap records interrupted pc, cause and status, undisturbed by CSR writes |
| `Interrupts.InterruptReturns` | pCPU/src/rtl/privilege.v:61-64 | from an interrupt trap over any handler that neither raises an exception nor rewrites saved pc or status: no second interrupt before the return, which fetches the interrupted instruction, through the late copy of mepc, with the enable bit restored |
| `InterruptProgress.LineComesUp` | pCPU/src/rtl/privilege.v:197-239 | an issued request whose places in mstatus and mie are ones raises the interrupt line of an idle trap unit within three clocks, and it stays up until the trap |
| `InterruptProgress.TrapByDecode` | pCPU/src/rtl/privilege.v:197-253 | the first decode after those clocks takes the trap, and mcause is 0x80000007 for the timer and 0x8000000b for a device |
| `InterruptProgress.TrapBySecondDecode` | pCPU/src/rtl/privilege.v:197-253 | with a memory that never answers in the clock of the request, that is by the second decode |
| `TrapRegisters.CsrWriteTakes` | pCPU/src/rtl/privilege.v:162-173 | a CSR write sets exactly the writable places of the register with that number, and no other register |
| `TrapRegisters.TrapAddress` | pCPU/src/rtl/privilege.v:166-166 | after d is written to mtvec the trap address is d rounded down to a multiple of four |
| `TrapRegisters.StatusMoves` | pCPU/src/rtl/privilege.v:176-185 | a trap moves the enable digit of mstatus to its copy and clears it, a return moves it back and sets the copy, and every other digit stays |
| `TrapRegisters.MaskWritten` | pCPU/src/rtl/interrupt_unit.v:55-58 | after a write to the mask register each line is off exactly if its digit of the word is one |
| `TrapRegisters.PulseAfterWrite` | pCPU/src/rtl/interrupt_unit.v:55-127 | a pulse in the clock of such a write is saved exactly if the write left its line on, or it was saved before, and it is not issued at once |
| `Tmds.TmdsChannel.Tick` | pCPU/src/rtl/hdmi/tmds_channel.sv:98-167 | accumulator and output word in every mode |
| `Tmds.TmdsEncoder.Tick` | pCPU/src/rtl/hdmi.v:119-143 | the second encoder's accumulator and output word |
| `Tmds.AddIsDisparity` | pCPU/src/rtl/hdmi/tmds_channel.sv:70-95 | what a video word adds to the accumulator is its ones minus its zeros |
| `Tmds.AccIsRunningDisparity` | pCPU/src/rtl/hdmi/tmds_channel.sv:54-98 | for every stream the accumulator is ones minus zeros since the last control symbol, even, and within -8 to 8 |
| `Tmds.StepAgrees` | pCPU/src/rtl/hdmi.v:128-143 | with one accumulator twice the other, both encoders send the same word and stay so |
| `Tmds.EncodersAgree` | pCPU/src/rtl/hdmi.v:119-143 | the two encoders send identical words on every stream |
| `Tmds.VideoRoundTrip` | pCPU/src/rtl/hdmi/tmds_channel.sv:56-95 | undoing inversion and chain recovers the byte for any accumulator |
| `Tmds.QmTransitions` | pCPU/src/rtl/hdmi/tmds_channel.sv:56-69 | the minimised byte has at most three transitions |
| `Tmds.VideoTransitions` | pCPU/src/rtl/hdmi/tmds_channel.sv:70-95 | a video word has at most five transitions |
| `Tmds.ControlTransitions` | pCPU/src/rtl/hdmi/tmds_channel.sv:101-110 | a control word has at least seven transitions |
| `Tmds.StreamRoundTrip` | pCPU/src/rtl/hdmi/tmds_channel.sv:56-110 | every stream of bytes and control symbols on one channel is recovered from its words |
| `Link.LinkRoundTrip` | pCPU/src/rtl/hdmi/tmds_channel.sv:98-167 | a receiver of the three channels, with the code words of HDMI 1.4 as numbers, gets back every stream of blanks, pictures, data islands and their guards laid out in periods, whatever the accumulators |
| `Link.GuardValues` | pCPU/src/rtl/hdmi/tmds_channel.sv:136-155 | the guard words of every channel as numbers; on channel 0 the data guard is the island word of twelve plus the control bits |
| `Link.FramesAreLaidOut` | pCPU/src/rtl/hdmi/hdmi.sv:161-236 | the modes given to the channels over any number of frames are laid out in such periods, whatever the numbers of packets and positions that fit the line |
| `Lfsr.Crcu8` | pCPU/coremark/core_util.c:142-165 | the byte loop is the shift-register code on the eight bits, lowest first |
| `Lfsr.Crcu16` | pCPU/coremark/core_util.c:166-170 | the code on sixteen bits, lowest first |
| `Lfsr.Crcu32` | pCPU/coremark/core_util.c:171-175 | the code on the low half and then the high half |
| `Lfsr.CodedStepIsStep` | pCPU/coremark/core_util.c:148-163 | flipping, shifting and setting the top bit is one shift with taps 0xa001 |
| `Lfsr.CheckLinear` | pCPU/coremark/core_util.c:142-165 | the check of a sum of messages is the sum of their checks |
| `Lfsr.UncheckCheck` | pCPU/coremark/core_util.c:142-165 | every step can be undone: the register before a message is recovered from the one after |
| `Lfsr.ResidueIsZero` | pCPU/src/rtl/hdmi/packet_assembler.sv:36-41 | feeding the check value back leaves zero |
| `Lfsr.CheckByShifts` | pCPU/src/rtl/hdmi/packet_assembler.sv:36-41 | reading up to a register's width of bits is adding them to the register and shifting |
| `Lfsr.BurstDetected` | pCPU/coremark/core_util.c:142-178 | messages of equal length that differ only within 16 (for the HDMI code 8) consecutive bits never share a check value |
| `Packets.NextEccIsStep` | pCPU/src/rtl/hdmi/packet_assembler.sv:36-41 | the packet's parity step is the same code with taps 0x83 |
| `Packets.PacketAssembler.Tick` | pCPU/src/rtl/hdmi/packet_assembler.sv:14-78 | counter and five parity registers after a clock |
| `Packets.ParityWhileSending` | pCPU/src/rtl/hdmi/packet_assembler.sv:45-72 | taking two bits a clock is the serial code: each register holds the check of what its block has sent |
| `Packets.PacketSent` | pCPU/src/rtl/hdmi/packet_assembler.sv:25-78 | 32 clocks send every block followed by its own check bits, with residue zero, and reset the assembler |
| `Kernel.MasksAsSending` | pseudOS/kernel/process.c:394-394 | masking with the request code picks out sending processes, and unused slots |
| `KernelInvariant.SendingIffQueuedOnce` | pseudOS/kernel/process.c:319-350 | a process is sending exactly when it is queued, then on one queue only, once, that of its target |
| `KernelInvariant.EnqueueKeepsQueues` | pseudOS/kernel/process.c:331-341 | appending at the tail keeps every queue linked, acyclic and disjoint |
| `KernelInvariant.UnlinkKeepsQueues` | pseudOS/kernel/process.c:424-437 | taking any sender out of its queue keeps them so |
| `KernelInvariant.SendKeeps` | pseudOS/kernel/process.c:292-356 | a send, direct, blocking or refused, keeps the kernel's invariant |
| `KernelInvariant.ReceiveKeeps` | pseudOS/kernel/process.c:358-473 | a receive, from anyone or one sender, finding one or blocking, keeps it; a sender it takes is on its queue |
| `KernelInvariant.ReceiverMissesNobody` | pseudOS/kernel/process.c:373-418 | a receiver blocks only when no sender it would accept is queued on it |
| `KernelInvariant.ScheduleKeepsIff` | pseudOS/kernel/process.c:154-214 | rescheduling restores the invariant exactly when the caller is not blocked or somebody else is ready |
| `KernelCalls.RequestsByNumber` | pseudOS/kernel/syscall.c:73-113 | the effect of every permitted request, by the numbers in the caller's registers and message: refused, sent to a waiting process, queued, refused because it must not wait, received from the first or the named sender, or waiting; file-system calls to nobody go to process 5 |
| `KernelRuns.StepKeepsSafe` | pseudOS/kernel/syscall.c:33-118 | every timer tick, environment call and computation keeps the invariant |
| `KernelRuns.RunKeepsSafe` | pseudOS/kernel/process.c:292-473 | in every reachable state queues are well formed and no rendezvous is missed |
| `KernelRuns.ScheduleApproaches` | pseudOS/kernel/process.c:198-214 | each scheduling brings the running slot nearer to any ready process, never past it |
| `KernelRuns.ReadyRunsSoon` | pseudOS/kernel/process.c:154-214 | a ready process runs within as many schedulings as there are slots before it, at most 63 |
| `KernelRuns.ResumesWhereItLeft` | pseudOS/kernel/process.c:133-195 | a process resumes with the registers and at the address saved when it was switched out, over any run in between |
| `KernelStart.StartsAtEntry` | pseudOS/sdboot.c:114-132 | after boot, up to 60 creations and any permitted run, a process first runs at the entry given for it with all registers zero but the stack pointer, which is its stack; process 1 at the first schedule |
| `EnvironmentCall.CallIsRecordedBehind` | pCPU/src/rtl/riscv-multicyc.v:425-430 | in the exception clock the trap unit records the address after the call |
| `EnvironmentCall.CallCause` | pCPU/src/rtl/riscv-multicyc.v:436-443 | mcause is 11 after an environment call and 3 after a breakpoint |
| `EnvironmentCall.CallResumesEightOn` | pseudOS/kernel/syscall.c:36-37 | over any run, a process that made an environment call resumes eight bytes after the call |
| `KernelDelivery.RunConserves` | pseudOS/kernel/process.c:302-473 | over any run, letters sent from p to d are those delivered, in order, unchanged, plus the one still blocked |
| `KernelDelivery.SourceIsSender` | pseudOS/kernel/process.c:262-263 | over any run, every letter read out of a receiver's buffer carries the pid of the process it came from, handed over directly or taken from a queue |
| `KernelDelivery.FailedSend` | pseudOS/kernel/process.c:275-321 | a nonblocking request is refused exactly when its target does not wait for the caller, and then, as a whole, leaves table and queues untouched and writes only the sender's pid into the caller's own buffer |
| `KernelDelivery.FailedSendStep` | pseudOS/kernel/syscall.c:104-116 | through the whole environment call, rescheduling included, such a request leaves every process's dealings with messages and every other buffer as they were |
| `KernelDelivery.ArrivalOrder` | pseudOS/kernel/process.c:380-392 | a process receiving from anyone gets messages in the order they were sent |
| `KernelSlips.EnqueueAsCodedIff` | pseudOS/kernel/process.c:331-341 | the tail walk as written queues correctly exactly when the queue is empty, or has one sender and the receiver is linked to none |
| `KernelSlips.EnqueueAsCodedLosesSenders` | pseudOS/kernel/process.c:332-336 | otherwise it walks off the list or leaves a sender on no queue |
| `KernelSlips.UnlinkAsCodedIff` | pseudOS/kernel/process.c:424-437 | the unlink as written is right exactly for the first sender |
| `KernelSlips.UnlinkAsCodedKeepsLink` | pseudOS/kernel/process.c:433-437 | otherwise the released sender stays linked |
| `KernelSlips.ThirdSenderCutsQueue` | pseudOS/kernel/process.c:332-336 | a concrete table on which the tail walk loses a sender |
| `KernelSlips.SecondSenderStaysLinked` | pseudOS/kernel/process.c:433-437 | a concrete table on which the unlink leaves a released sender queued |
| `KernelCode.ProcManager.constructor` | pseudOS/kernel/process.c:475-524 | the process table at boot; 1 to 3 with the entries and stacks given |
| `KernelBoot.BootWithProcesses` | pseudOS/kernel/process.c:475-524 | booting and creating processes succeeds exactly up to 60 of them, and gives a safe state |
| `KernelBoot.NewProcessKeepsIff` | pseudOS/sdboot.c:114-132 | in any safe state creating a process leaves a table that is safe with some queues exactly when a slot from 1 on is unused and nobody is queued on the first such slot; then it is safe with the queues as they were |
| `KernelBoot.CreationCutsQueue` | pseudOS/sdboot.c:125-126 | a safe state in which creation leaves a sender on no queue |
| `KernelCode.ProcManager.NewProcess` | pseudOS/sdboot.c:114-132 | creation in place, in the first unused slot, or none when the table is full; the slot gets number, entry, stack and state, keeps its other registers, and no other slot changes |
| `KernelCode.ProcManager.GetAvailPid` | pseudOS/kernel/process.c:239-247 | the first unused slot, or none |
| `KernelCode.ProcManager.GetNext` | pseudOS/kernel/process.c:198-214 | the first ready process after the running one, round the table |
| `KernelCode.ProcManager.SaveFrame` | pseudOS/kernel/process.c:133-140 | the save area is copied whole into one process and no other changes |
| `KernelCode.ProcManager.Schedule` | pseudOS/kernel/process.c:154-195 | the context switch in place is the scheduler's step |
| `KernelCode.ProcManager.Tail` | pseudOS/kernel/process.c:332-336 | the intended tail walk ends at the last sender |
| `KernelCode.ProcManager.Find` | pseudOS/kernel/process.c:397-409 | the search ends at the wanted sender with its predecessor |
| `KernelCode.ProcManager.MsgSend` | pseudOS/kernel/process.c:292-356 | the send in place is the specified one; the code's assertions, made on the table's fields, hold |
| `KernelCode.ProcManager.MsgReceive` | pseudOS/kernel/process.c:358-473 | the receive in place is the specified one; the code's assertions, made on the table's fields, hold |
| `KernelCode.ProcManager.SyscallHandler` | pseudOS/kernel/syscall.c:33-118 | the handler in place is the step of an environment call in a run |
| `ListSort.MergeSortCorrect` | pCPU/coremark/core_list_join.c:426-496 | with a comparison that decides a total preorder, even one with side effects, the result is ascending, a permutation, and stable |
| `ListSort.SortPermutes` | pCPU/coremark/core_list_join.c:426-496 | with any comparison the result is a permutation |
| `ListSort.PassSorts` | pCPU/coremark/core_list_join.c:431-487 | pass invariant: sorted blocks of n become sorted blocks of 2n |
| `ListSort.PassStable` | pCPU/coremark/core_list_join.c:440-480 | a pass changes no two ties round |
| `ListCode.MergeBlocks` | pCPU/coremark/core_list_join.c:456-482 | relinking in place merges two blocks behind the tail and leaves the rest of the list whole |
| `ListCode.MergePass` | pCPU/coremark/core_list_join.c:431-493 | one pass in place; it reports at most one merge exactly when one merge covers the list |
| `ListCode.MergeSort` | pCPU/coremark/core_list_join.c:426-496 | terminates on every non-empty list with an acyclic list of the same nodes, in the order of the specified sort |
| `ListData.CmpIdxKeeps` | pCPU/coremark/core_list_join.c:112-118 | comparing by index changes no index and no backup byte |
| `ListData.CmpComplexKeeps` | pCPU/coremark/core_list_join.c:63-105 | nor does comparing by data, whatever is computed and cached |
| `ListData.SortByIdxRestores` | pCPU/coremark/core_list_join.c:112-118 | sorting two or more items by index compares, and so restores, every one: the low byte is the upper byte |
| `ListValues.SortByValue` | pCPU/coremark/core_list_join.c:63-105 | sorting two or more items by value leaves each with a value, in the low seven bits, the values ascending; a value was there before or was computed, once, from the item's data |
| `ListBench.Find` | pCPU/coremark/core_list_join.c:370-380 | the first match by index or by data, or none |
| `ListBench.Reverse` | pCPU/coremark/core_list_join.c:395-404 | the list reversed in place |
| `ListBench.Cache` | pCPU/coremark/core_list_join.c:157-162 | the node after the found one moves to second place, aliasing included |
| `ListBench.SearchAndShuffle` | pCPU/coremark/core_list_join.c:137-169 | the rounds of searching in place leave the list of the specified rounds, and the index wanted next |
| `ListBench.RoundAt` | pCPU/coremark/core_list_join.c:139-163 | a round node by node: the node in front of the first match comes second, the others in opposite order |
| `ListBench.IndexAsked` | pCPU/coremark/core_list_join.c:164-165 | the index wanted after n rounds, its 16 bits wrapping once |
| `ListBench.Remove` | pCPU/coremark/core_list_join.c:316-327 | data swapped and the next node unlinked |
| `ListBench.UndoRemove` | pCPU/coremark/core_list_join.c:345-355 | the node linked back and data swapped back |
| `ListBench.RemoveAndUndo` | pCPU/coremark/core_list_join.c:174-186 | removing and putting back leaves list and data as they were |
| `ListBench.BenchList` | pCPU/coremark/core_list_join.c:132-199 | the benchmark returns the same nodes and data references, in index order, every low byte the upper byte; started in index order, the same indices, and with distinct indices the same list; the results computed are those of the sort by value, run exactly when an index is asked for |
| `Storage.Blk.SeekAndRead` | pseudOS/kernel/blk.c:11-40 | the buffer gets exactly the disk's bytes of the range across sector borders, none when the range wraps; a sector changed in the cache is not lost |
| `Storage.OverlayReadsBack` | pseudOS/kernel/blk.c:22-22 | a sector written back reads back as the cached words, the rest of the disk unchanged |
| `Storage.Blk.CopySector` | pseudOS/kernel/blk.c:26-36 | the bytes of one cached sector, unpacked from little-endian words |
| `Fat.ReadFile` | pseudOS/fs/fat32.c:117-147 | terminates; for every chain in the table's bytes that starts at the file's cluster: refused with -1 and the buffer untouched unless its clusters follow one another and its mark is the last, else the bytes of the file in chain order, and their number, for a range that starts in the file |
| `Fat.NextIsTableEntry` | pseudOS/fs/fat32.c:126-126 | the entry read for cluster c is the little-endian number in the four bytes at 512 * fatBegin + 4 * c, for a table on the disk below 2^32 |
| `Fat.CheckPassesIff` | pseudOS/fs/fat32.c:123-133 | of all chains in those bytes the check passes exactly those with consecutive clusters ended by 0x0fffffff or above |
| `Fat.ContiguousIff` | pseudOS/fs/fat32.c:123-133 | of chains ended as the code expects, the check passes exactly those whose clusters follow one another |
| `Fat.StandardMarkRefused` | pseudOS/fs/fat32.c:124-131 | a chain ended by 0x0ffffff8 is refused |
| `Fat.MarkedContiguousIff` | pseudOS/fs/fat32.c:123-133 | of chains ended by any mark in use, the check passes exactly the consecutive ones ended by 0x0fffffff (and says what happens when the mark is the number after the last cluster's) |
| `Fat.MarkedReadResult` | pseudOS/fs/fat32.c:123-147 | hence what the read returns for a file with any such chain |
| `Fat.ReadSizeExact` | pseudOS/fs/fat32.c:142-145 | the size is the smaller of what is asked and what is left, exactly when the range does not wrap into the file |
| `Fat.ReadSizeWraps` | pseudOS/fs/fat32.c:142-145 | a range inside the file whose end wraps: the size is not cut |
| `Fat.PastTheEnd` | pseudOS/fs/fat32.c:142-147 | from anywhere beyond the end: exactly when the result is negative, and exactly when nothing is moved |
| `Fat.PastTheEndMoves` | pseudOS/fs/fat32.c:142-147 | an input beyond the end that returns one and moves the byte before the file's first cluster |
| `Fat.PastTheEndPositive` | pseudOS/fs/fat32.c:142-147 | an input beyond the end that returns a positive size |
| `Fat.ReadIsFileSlice` | pseudOS/fs/fat32.c:117-147 | what is moved is the file's data in cluster-chain order from the position asked for |
| `Loader.PlaceSegment` | pseudOS/kernel/elf.c:313-317 | the clearing loop and the backward copy in place |
| `Loader.PlacedIsMove` | pseudOS/kernel/elf.c:316-317 | each word after the move, though source and target overlap, where the clearing loop misses the file image |
| `Loader.MoveIsRightIff` | pseudOS/kernel/elf.c:313-317 | every word of the file image arrives, for every memory, exactly when nothing is cleared, the image is empty, or it ends before the cleared words |
| `Loader.PatchAll` | pseudOS/kernel/elf.c:484-498 | the patch loop: with distinct targets and symbols not patched, each target holds base plus symbol value plus addend modulo 2^32, and every other word is as before |
| `Loader.LoadSharedLibrary` | pseudOS/kernel/elf.c:264-319 | the link table holds each name with base plus its symbol value; -1 exactly if some jump slot has another type, the segment then not moved; otherwise each relocated word holds base plus symbol plus addend, each jump slot base plus symbol, and every other word is that of the file, zero where cleared, or as before |
| `Loader.LoadDynamicExec` | pseudOS/kernel/elf.c:438-500 | -1 exactly if some jump slot has another type, nothing then written; otherwise each jump slot holds the address of the library function of its name, or -1 if there is none, each relocated word base plus symbol plus addend, and every other word is that of the file, zero where cleared, or as before |
| `Loader.FindFunction` | pseudOS/kernel/elf.c:127-135 | the address of the first function of that name, or -1 if there is none |
| `Loader.PatchingCommutesWithMove` | pseudOS/kernel/elf.c:275-289 | patching before the move at lowered addresses and patching after it give the same memory, but for what is left behind |
| `Loader.BssClearedIff` | pseudOS/kernel/elf.c:314-315 | the words past the file image come out cleared exactly when there are none, or as many as the image has |

## Left out

- `CoreRefinement.CoreRefinesIsa`: misaligned accesses and jump targets, which the core does not detect, are left out of the runs. The word a CSR reads as is the trap unit's choice.
- `Machine.MachineRefines`: the cache is wired straight to the core, where the board has its address mapper between them; runs start after reset with the cache swept, and reset does not come up again.
- `Machine.MachineRefinesIsa`: divisions in the run are exact ones; on others the unit does not meet the standard.
- `InterruptedRun.InterruptReturnsToRun`: the handler raises no exception, does not write the saved pc, and writes the status only with the bits it has; the words that CSRs read as are free.
- `CacheRefinement.CacheIsFlatMemory`: one burst memory stands for everything below the cache; its controller is represented by its protocol only.
- `Interrupts.OneTrapPerRequest`: runs start out of reset. Pulses on a line that arrive while one is saved are merged, as in the hardware. The registers mscratch and mtval are plain storage and not modelled; the masks through which CSRs are read are left out.
- `KernelRuns.RunKeepsSafe`: processes are created before the first schedule and never end; a caller that names itself or a slot outside the table is left out (the kernel asserts the first and reads outside the table on the second).
- `KernelDelivery.RunConserves`: a message buffer is one cell owned by one process, and processes write only their own; overlapping buffers are left out.
- `ListBench.BenchList`: the returned checksum, the read-only loops that compute it, and the contents of the two algorithms behind the data comparison; the latter are an arbitrary function of results and data.
- `Storage.Blk.SeekAndRead`: loads and write-backs complete before the next access; the device's busy time is left out.
- `Fat.ReadFile`: takes the directory record as given; directory search and 8.3 names are left out.
- `Fat.MarkedContiguousIff`: chains whose entries have the four reserved bits clear.
- `KernelBoot.BootWithProcesses`: processes are created by `new_process_from_elf_in_memory`; the two daemons registered in fixed slots are left out.
- `CoreDecode.AluComputes`: the bitwise operations are the language's own on 32-bit vectors, on both sides.
- `EnvironmentCall.CallResumesEightOn`: reading mepc gives the register; the read masks of the trap unit are left out.
- `Loader.LoadSharedLibrary`: header and section parsing, and reading names out of the file; names and relocation entries are given, symbol values are read from memory. What every word holds afterwards is stated for relocations of distinct words of the segment against symbols that loading does not write.
- `Link.FramesAreLaidOut`: positions are counted from the start of a frame; preambles are control bits like others, and the DVI mode, which has neither guards nor islands, is left out.
- `Packets.PacketSent`: the packet is held for its 32 clocks and starts with the counter at zero.
- Deadlock of processes waiting for each other, which the kernel does not try to prevent.
- Trap entry and exit in assembly, device drivers, file-system and terminal daemons, boot code and printing.
- Controllers for PSRAM, SD card, serial line, keyboard and network: pins, clock crossings and timing.
- InfoFrames, glyph tables, board files, and the matrix and state parts of the benchmark.
