# Verified model of a Game Boy Advance emulator and its grader

The repository holds a Game Boy Advance core in Rust, an ARM assembler in Python with
the BIOS routines it emits, and a grader that compares emulators frame by frame. This
project models their stateful parts in Dafny and proves what they are relied on for.

- **Timers, sound and mixing** (`timers`, `fifo`, `audio`, `soundstream`, `playback`,
  `audible`, `cascade`, `bus`, `mixer`): four timers advanced in closed form, the merge of their
  overflows with sampling and FIFO refills, and the mixer with its integer DC blocker. The
  batched form is shown equal to a machine that moves one cycle at a time exactly where it
  is: always, except for some batches in which timer 1 counts timer 0. What every sample
  is follows from the registers and the overflow times.
- **CPU** (`alu`, `shifter`, `cpustate`, `banking`, `arm`, `transfers`, `operations`,
  `effects`, `wordforms`, `interrupts`, `pipeline`, `blocks`, `dispatch`, `armruns`,
  `stepping`, `machine`): flag arithmetic, barrel shifter, swap-based register banks,
  exception entry and return, every ARM instruction from its word to its effect on bits
  and bytes, and the two-slot prefetch pipe (ARM DDI 0100, sections A2.3 to A2.6, A3.1,
  A3.2, A4.1 and A5.1 to A5.4).
- **BIOS** (`biosdiv`, `unpack`, `decompress`, `encoding`, `assembler`, `divcode`,
  `divrun`, `irqcode`, `irqrun`): division and decompression as loops over registers and
  memory (GBATEK, "BIOS Arithmetic Functions" and "BIOS Decompression Functions"), the
  assembler against the CPU's decoder, and the emitted words of the division and of the
  interrupt handler run on the CPU.
- **EEPROM and scanlines** (`eeprom`, `scanline`, `gba`, `frames`, `requests`): the
  bit-serial chip against a block store, and whole runs of the frame loop with the
  interrupts they request.
- **Grader** (`lockstep`, `tallies`, `refcache`, `recording`, `replay`, `session`): what a
  comparison reports, a recorded reference against the live one, and sessions that re-run
  from power-on against stepping.

Code that changes state is a class or a method with a loop, proved against a function of
its old state; the theorems are about those functions, and say of each in terms of
registers, bits, bytes and frames what it computes. `option` and `arithmetic` hold
shared definitions and facts about products, powers and concatenation.

## Assumptions

- Clocks (`sched.now`, the sample clock), sample buffers and frame counters do not
  overflow. Everything else that wraps is written out. A batch of cycles is at most
  0xFFFE0000, so that sums of counters and ticks fit in 32 bits.
- `cpsr` holds zero in its low five bits where a theorem says `cpsr.low == 0`. The power-on
  value does not (candidates/gba-core/src/cpu/mod.rs:137); the first status write or
  exception return establishes it and all others keep it.
- The session server serves one request at a time (quickstart/services/oracle-server.py:587);
  beside it runs only the thread that removes idle sessions. So every history of a session is
  a `Session.Timeline`.
- The CPU's memory is one RAM mirrored through the address space, changed by nothing but
  instructions. What is outside, pending interrupts and writes to the halt register, is an
  input of each step. `Exec` in `Pipeline` is any function that executes an instruction;
  `ArmRuns` puts the modelled ARM instructions there and leaves Thumb ones any function.
- The LZ77 and run-length routines find their header at a word-aligned address and video
  output at an even one. What is read below the memory they work on is `below`, a parameter.

Where code and documentation differ the code is followed. The session's sound is
documented as the sound since the last read (quickstart/services/oracle-server.py:78), but
a run leaves all sound since frame 0: `Session.AudioSinceRead` says when the two agree. A
timer that counts another is stamped with the other's first overflow: `Audio.MarksRight`
and `Cascade.BatchExact` say when that is its own. EEPROM writes are documented elsewhere
with a stop bit, which the chip here does not consume: `Eeprom.StopBitDesynchronises`. The
cap on a frame is four frame times: `Frames.CapFires` says for which burst lengths it never
fires.

## Model

| member | source | states |
|---|---|---|
| Timers.AddTicksCounts | candidates/gba-core/src/timer.rs:142-158 | ticks are conserved: overflows times the period plus the counter's distance from reload accounts for every tick, whatever counter and reload |
| Timers.CountsUnique | candidates/gba-core/src/timer.rs:142-158 | that account determines both the new counter and the overflow count |
| Timers.AdvanceAdvances | candidates/gba-core/src/timer.rs:74-134 | one batch of a prescaler-driven timer, start-up delay and prescaler phase included, is the account taken in CPU cycles |
| Timers.AdvancesUnique | candidates/gba-core/src/timer.rs:74-134 | the account in cycles has one solution, so state and count are determined by it |
| Timers.AdvanceSplit | candidates/gba-core/src/timer.rs:69-134 | cutting a batch anywhere changes neither the final state nor the number of overflows |
| Timers.AdvanceIsCycles | candidates/gba-core/src/timer.rs:69-140 | the closed form equals single cycles in state and count, and the j-th overflow is exactly at first_cycle + j * period, inside the batch |
| Timers.OverflowsInBatch | candidates/gba-core/src/timer.rs:69-140 | all overflow times lie in the batch and the next one lies beyond it, so no clamp bites |
| Timers.StampsContinue | candidates/gba-core/src/timer.rs:69-140 | overflow times of the second part of a cut batch continue those of the first |
| Timers.AfterSplit | candidates/gba-core/src/timer.rs:69-134 | the same for a whole chain of cascaded timers |
| Timers.BatchIsCycles | candidates/gba-core/src/timer.rs:69-134 | for any four timers, cascades included, the batch equals that many one-cycle steps in state and counts |
| Timers.OverflowTimes | candidates/gba-core/src/timer.rs:118-131 | for any timer of any chain the one-cycle machine overflows as often as the batch counts, and exactly at closed-form times: a cascaded timer at the overflow of the timer below that fills its counter |
| Timers.RegistersDecide | candidates/gba-core/src/timer.rs:46-57 | from the control register as written: bit 7 starts the timer, bit 2 makes it count, bits 1 and 0 make a tick 1, 64, 256 or 1024 cycles; overflow j of a running timer is in the cycle where counter, phase, delay and j periods of (65536 - reload) ticks have passed, and of a counting one the overflow below that fills its counter |
| Timers.OverflowsCut | candidates/gba-core/src/timer.rs:69-134 | the overflow times of a cut run are those of its parts, cascades included |
| Timers.ControlWriteTiming | candidates/gba-core/src/timer.rs:164-197 | stopping an enabled timer counts one more cycle as if its start-up delay was over, so it is one cycle of it exactly without delay; starting one puts its first overflow two cycles and a period away; a new rate restarts the prescaler phase, the same rate keeps it, and nothing else changes anything but the control |
| Timers.TimerBank.Tick | candidates/gba-core/src/timer.rs:69-134 | the loop over four mutable timers computes the chain's state and each timer's overflows |
| Timers.TimerBank.TickDriven | candidates/gba-core/src/timer.rs:74-118 | one prescaler-driven timer in place: delay, prescaler, counter and overflow record |
| Timers.TimerBank.WriteControl | candidates/gba-core/src/timer.rs:164-197 | a control write in place: the disable tick, the enable reload and delay, the prescaler reset |
| SoundFifo.PushAllKeepsPrefix | candidates/gba-core/src/apu.rs:368-379 | what fits is queued in order, what does not is dropped, and nothing else is |
| SoundFifo.Fifo.Write | candidates/gba-core/src/apu.rs:368-379 | the ring buffer's two-byte write is two pushes on the bounded queue it stands for |
| SoundFifo.Fifo.Read | candidates/gba-core/src/apu.rs:381-388 | a read takes the oldest byte, or gives 0 and changes nothing when empty |
| SoundFifo.Fifo.Reset | candidates/gba-core/src/apu.rs:362-366 | a reset empties the queue |
| Audio.TickUntilVia | candidates/gba-core/src/apu.rs:91-102 | stopping on the way to a target clock makes no difference to samples or state |
| Audio.MergeDelivers | candidates/gba-core/src/bus.rs:461-474 | every overflow of both streams is delivered once, in non-decreasing cycle order |
| Audio.BatchIndependence | candidates/gba-core/src/bus.rs:447-488 | one batch of a + b cycles leaves the same buffer, FIFOs, latches, DMA pointers and clock as a batch of a and one of b, wherever the cut is clean: always unless timer 1 counts timer 0, and then by a condition on registers |
| Audio.BatchIsCycleByCycle | candidates/gba-core/src/bus.rs:447-488 | a timely batch equals the machine that moves one cycle at a time; all batches are timely unless timer 1 counts timer 0 |
| Audio.MarksRight | candidates/gba-core/src/bus.rs:453-474 | the cycles at which a batch delivers timer 1's overflows are those at which they happen exactly if it is timely: a cascaded timer 1 does not overflow, or is one tick from it and overflows once, or keeps step with timer 0, or overflows again in the last cycle with a period no shorter |
| Audio.CutsRight | candidates/gba-core/src/bus.rs:453-474 | a cut moves no delivery exactly if it is clean |
| Audio.BatchSamples | candidates/gba-core/src/apu.rs:91-102 | a batch appends floor((base+n)/512) - floor(base/512) stereo samples, whatever the timers do |
| Cascade.BatchExact | candidates/gba-core/src/bus.rs:447-488 | for given timers, PSG and filter state: through this mixer the batched path sounds like the one-cycle machine for every sound, clock and mixer setting, exactly if the batch is timely; and then all states are equal, whatever the mixer |
| Cascade.CutExact | candidates/gba-core/src/bus.rs:447-488 | and a cut changes nothing heard through this mixer exactly if it is clean; and then no state either |
| Cascade.Distinguish | candidates/gba-core/src/apu.rs:125-224 | for any two different deliveries of timer 1's overflows, any PSG and any filter state, there is a sound that comes out of the mixer differently |
| Audible.SoundsDiffer | candidates/gba-core/src/apu.rs:179-224 | at one FIFO on full volume the samples emitted determine the latches: neither clamp nor DC blocker hides a difference |
| Audible.PlacedPlays | candidates/gba-core/src/apu.rs:91-102 | what the mixer emits over any run is made of the latches at its samples, and nothing else depends on the mixer |
| Cascade.CascadeDependsOnBatching | candidates/gba-core/src/timer.rs:120-131 | two concrete cascades that are heard at other times than they happen, one of them differently when its batch is cut |
| SoundStream.PopStreams | candidates/gba-core/src/bus.rs:514-559 | each pop plays the next source byte, the refill drops none, and the queue keeps at least 16 bytes from the first refill on |
| SoundStream.RunStreams | candidates/gba-core/src/bus.rs:461-480 | over any run of overflows the latch of a FIFO that started empty shows 0 and then the source bytes in order |
| SoundStream.BatchStreams | candidates/gba-core/src/bus.rs:439-488 | in one batch as many source bytes are played as the clocking timer overflows |
| SoundStream.OverflowMeans | candidates/gba-core/src/bus.rs:514-559 | one overflow in full: the latch takes the front byte or, from an empty FIFO, silence; a FIFO left with at most sixteen bytes gets the sixteen its channel points at and the channel moves on by sixteen, any other stays |
| Playback.SamplesHold | candidates/gba-core/src/apu.rs:91-102 | sampling on to a clock appends one pair of the two latches, A and B in this order, for every multiple of 512 on the way, and none with the sound off |
| Playback.RunPlays | candidates/gba-core/src/bus.rs:461-480 | over any overflows in order every sample shows the byte of the last pop before its window's end, and not of one at it |
| Playback.BatchPlays | candidates/gba-core/src/bus.rs:439-488 | every sample of a batch: at window end e it is the latch before, silence, or byte pops + m - 2 of the source, where m is how often the FIFO's timer has overflowed before e by the one-cycle machine |
| Bus.RaisedCut | candidates/gba-core/src/bus.rs:447-452 | the timer interrupt flags raised do not depend on batching, cascades included |
| Bus.FlagsRaised | candidates/gba-core/src/bus.rs:447-452 | by the one-cycle machine: bit 3 + i of IF is raised in a batch exactly if timer i may interrupt and overflows in it |
| Bus.FlagFromRegister | candidates/gba-core/src/bus.rs:447-452 | from the register: a started timer that does not count raises its flag exactly if bit 6 is set and counter, phase and delay run out in the batch |
| Bus.Bus.Tick | candidates/gba-core/src/bus.rs:439-488 | the imperative tick over timers, APU fields, FIFOs and DMA channels computes the specified batch, and a flag is in IF afterwards exactly if it was there or is 3 to 6, its timer's interrupt bit is set and the one-cycle machine has that timer overflow (Bus.FlagsRaised, Playback.BatchPlays) |
| Bus.Bus.MergeAndServe | candidates/gba-core/src/bus.rs:459-480 | the k0/k1 merge loop serves the merged events in order, each at its clamped time |
| Bus.Bus.CheckSoundFifoDma | candidates/gba-core/src/bus.rs:514-559 | channels 1 and 2 in turn refill the FIFO they point at when it is at most half full, four words each |
| Bus.Bus.TickUntil | candidates/gba-core/src/apu.rs:91-102 | one sample for each 512-cycle window that closes by the target |
| Bus.Bus.OnTimerOverflow | candidates/gba-core/src/apu.rs:107-116 | an overflow pops the FIFOs clocked by that timer into their latches |
| Mixer.DacBounds | candidates/gba-core/src/apu.rs:195-207 | the DAC output is within -32704 to 32736 for every mix and register setting |
| Mixer.MixFits | candidates/gba-core/src/apu.rs:125-207 | no intermediate of the mix leaves 32 bits: channel sum, volume product, FIFO shares, mix, biased mix, and the clamped product with the gain |
| Mixer.SampleMeans | candidates/gba-core/src/apu.rs:125-224 | from SOUNDCNT_L, SOUNDCNT_H and SOUNDBIAS bit by bit: each side is 32 times its channels (level eight each if its bit is set there, times volume + 1, over 16, 8 or 4) plus 128 or 64 times each FIFO panned there, cut off at both ends of the range around the bias with the bits the resolution drops left out; then the filter |
| Mixer.SidesExchange | candidates/gba-core/src/apu.rs:125-224 | exchanging the registers and filters of the two sides exchanges the two samples |
| Mixer.FilterBounded | candidates/gba-core/src/apu.rs:212-223 | the DC blocker keeps -256 hi <= y - 256 x <= -256 lo for every DAC input, so no sum overflows and samples stay bounded |
| Mixer.FilterRunBounded | candidates/gba-core/src/apu.rs:212-223 | the same over every run of inputs |
| Mixer.SettlesToSilence | candidates/gba-core/src/apu.rs:212-223 | under constant input the emitted sample reaches 0 after at most the initial distance and stays there |
| Mixer.SamplesBounded | candidates/gba-core/src/apu.rs:125-224 | from power-on every sample of every run, registers changing at will, is in range |
| Mixer.BatchInRange | candidates/gba-core/src/bus.rs:439-488 | every sample that any batch of cycles appends is in range |
| Mixer.SampleMixer.GenerateSample | candidates/gba-core/src/apu.rs:125-224 | the in-place mixer computes the specified sample and filter states, which Mixer.SampleMeans gives for each side from the registers |
| Alu.AddChainIsSum | candidates/gba-core/src/cpu/alu.rs:60-103 | an ADDS/ADCS chain stores the sum and C is its carry |
| Alu.SubChainIsDifference | candidates/gba-core/src/cpu/alu.rs:71-111 | a SUBS/SBCS chain stores the difference modulo the width and C is set exactly without borrow |
| Alu.SubChainSigned | candidates/gba-core/src/cpu/alu.rs:71-111 | after the chain N differs from V exactly if the first number is smaller in two's complement |
| Alu.CompareDecides | candidates/gba-core/src/cpu/mod.rs:228-248 | CS, CC, GE and LT decide both orders of numbers of any width; for one word EQ, NE, HI, LS, GT and LE are exact too |
| Alu.LogicalSign | candidates/gba-core/src/cpu/arm.rs:165-212 | bit 31 of a bitwise result is the operation on bits 31 |
| Operations.DataProcessingMeans | candidates/gba-core/src/cpu/arm.rs:165-247 | for all sixteen opcodes the result, and in the flags what the S bit or CMP and CMN let through: sums and differences modulo 2^32, in RSB and RSC of the second operand less the first, with the unsigned carry and the signed overflow; every bit k of AND, EOR, ORR, MOV, BIC, MVN, TST and TEQ from bits k of the operands, with the shifter's carry and V untouched; nothing else changes |
| Operations.OperandsMean | candidates/gba-core/src/cpu/arm.rs:132-163 | where the two operands come from: rotated immediates, register amounts and their low byte, PC one word further ahead, amounts of zero |
| Operations.TestsDecide | candidates/gba-core/src/cpu/arm.rs:197-212 | TEQ sets Z exactly for equal operands, TST exactly for operands without a common bit |
| Operations.ShiftAt | candidates/gba-core/src/cpu/alu.rs:6-56 | every bit of every shift by every amount, and the bit carried out, from the bits of the operand |
| Shifter.ShifterIsRepetition | candidates/gba-core/src/cpu/alu.rs:6-56 | every shift by every register amount is the one-bit shift repeated, result and carry |
| Shifter.ImmediateForms | candidates/gba-core/src/cpu/alu.rs:16-56 | LSR #0 and ASR #0 shift by 32 and ROR #0 rotates through carry |
| CpuState.FlushHolds | candidates/gba-core/src/cpu/mod.rs:198-225 | a flush fills both slots from the aligned target and moves PC two instructions on |
| Effects.StepMeans | candidates/gba-core/src/cpu/mod.rs:251-308 | one step: halted it waits for a pending interrupt; one is entered if pending, enabled, unmasked and no return was just made; else slot 0 is executed unless its condition fails, and the wait after a return is one shorter |
| Effects.ExceptionsMean | candidates/gba-core/src/cpu/mod.rs:310-327 | entry in full: SWI goes to the code at 0x08 in supervisor mode, an interrupt to 0x18 in IRQ mode, both in ARM state with interrupts off, old status with mode number in the SPSR, return address in LR, every other register of every mode as it was |
| Effects.BxMeans | candidates/gba-core/src/cpu/arm.rs:115-126 | BX: bit 0 of the register becomes T, and the code next in the pipe is at the register's value with bit 0, or in ARM state the lowest two, cleared |
| Effects.BranchMeans | candidates/gba-core/src/cpu/arm.rs:96-109 | B and BL: the pipe holds the code that many words on from the branch and eight; BL leaves the address behind it in LR |
| Effects.ConditionsMean | candidates/gba-core/src/cpu/mod.rs:228-248 | all sixteen conditions from the result, carry and overflow last left in the flags |
| Banking.SwitchKeepsFile | candidates/gba-core/src/cpu/mod.rs:168-195 | a mode switch moves no value of the flat register file, FIQ r8-r12 and the shared User/System bank included |
| Banking.WriteChangesOneCell | candidates/gba-core/src/cpu/mod.rs:168-195 | a register write changes exactly the cell the register names in its mode |
| Banking.RunRefines | candidates/gba-core/src/cpu/mod.rs:168-195 | any run of switches and writes agrees with the flat file, in every visible register of the final mode |
| Interrupts.IrqIsTransparent | candidates/gba-core/src/cpu/mod.rs:310-327 | an IRQ, any preserving handler and SUBS PC, LR, #4 restore registers, PC, status, mode and pipe, in ARM and Thumb, from any mode but IRQ |
| Interrupts.IrqReturns | candidates/gba-core/src/cpu/arm.rs:228-243 | the core SUBS PC, LR, #4 jumps with: the interrupted registers, status and mode |
| Interrupts.NestedIrq | candidates/gba-core/src/cpu/mod.rs:310-327 | from IRQ mode everything but the link register comes back, so the registers are restored exactly if it already held the return address; the saved status is replaced by the current one |
| IrqRun.IrqServed | spec/gen_bios_stub.py:334-345 | the BIOS handler run on the CPU with its pipe: after an interrupt in ARM or Thumb code and whatever the program's handler does that keeps to its part, all registers of all modes but the interrupt's own, status, mode and pipe are back |
| IrqRun.Calls | spec/gen_bios_stub.py:321-343 | from the interrupt to the call: the program's handler gets the I/O registers in r0, its return address in LR and its own address in PC, six registers are on the stack, and the interrupt flags were stored |
| IrqRun.Restored | spec/gen_bios_stub.py:344-344 | line by line back: what the handler keeps and what the stack holds make up all that an exception's handler has to hand back |
| IrqCode.LineSets | spec/gen_bios_stub.py:336-342 | what each line before the call leaves, from its decoded word |
| Interrupts.SwiReturns | candidates/gba-core/src/cpu/arm.rs:618-630 | SWI, any preserving handler and MOVS PC, LR resume behind the SWI with registers, status and mode |
| Interrupts.ReturnRestores | candidates/gba-core/src/cpu/mod.rs:157-195 | for every exception mode, the return restores all visible registers but PC and every cell outside the mode's own bank |
| Pipeline.StepRefines | candidates/gba-core/src/cpu/mod.rs:251-308 | a step of the piped CPU is one of the plain fetch-execute machine, whatever the instruction does; the slots hold memory after it exactly if it changed PC and T through a flush only and missed slot 1, or strayed to a place with the same code |
| Pipeline.RunRefines | candidates/gba-core/src/cpu/mod.rs:251-308 | the same over every run whose steps, as they are met, change PC and T through flushes and miss slot 1 |
| Pipeline.EveryBoundary | candidates/gba-core/src/cpu/mod.rs:198-225 | at every boundary of such a run the slots hold the code at PC-8 and PC-4, or PC-4 and PC-2 |
| Dispatch.StaysInLine | candidates/gba-core/src/cpu/arm.rs:20-90 | for every decoded ARM instruction that does not flush: PC changes only if it is one of its unflushed destinations, and for certain if it is the written-back base of a block; T stays exactly if it is no status write of another T |
| ArmRuns.ArmInLine | candidates/gba-core/src/cpu/arm.rs:20-90 | so an ARM instruction that does not stray is in line, and a block writeback to PC or a write of T is not |
| ArmRuns.ArmRunRefines | candidates/gba-core/src/cpu/mod.rs:251-308 | every run of this decoder and executor that meets no straying ARM instruction and stores over no prefetched word goes through the states of the machine without a pipe, interrupts, halting and waking included |
| ArmRuns.StmiaStrays | candidates/gba-core/src/cpu/arm.rs:399-480 | STMIA PC!, {R0} is such an instruction: after it the slots hold memory exactly if R0 is the word that had been prefetched |
| Transfers.ByteRoundTrip | candidates/gba-core/src/bus.rs:133-156 | a byte written is read back and the other bytes of its word are kept |
| Effects.TransferMeans | candidates/gba-core/src/cpu/arm.rs:282-345 | LDR, LDRB, STR, STRB: address, every byte loaded (a word goes round from the addressed byte) or stored, every other byte of memory, and the base exactly where it is written back |
| Effects.HalfTransferMeans | candidates/gba-core/src/cpu/arm.rs:351-393 | LDRH, LDRSB, LDRSH, STRH: the same, with the sign of a signed load |
| Effects.SwapMeans | candidates/gba-core/src/cpu/arm.rs:592-612 | SWP and SWPB: the old bytes in the destination, the source register in memory, nothing else |
| Effects.MultiplyMeans | candidates/gba-core/src/cpu/arm.rs:486-516 | MUL and MLA: product plus accumulator modulo 2^32, N and Z of it |
| Effects.MultiplyLongMeans | candidates/gba-core/src/cpu/arm.rs:518-549 | the long multiplies: the product of the operands read as signed or unsigned, plus the accumulator, modulo 2^64, low word written last, N and Z of 64 bits |
| Effects.PsrWordBits | candidates/gba-core/src/cpu/arm.rs:555-560 | which bit of a status word each flag, mask and mode bit is |
| Effects.MrsMeans | candidates/gba-core/src/cpu/arm.rs:555-560 | MRS: the register gets the status or saved status, and the mode as its number |
| Effects.MsrMeans | candidates/gba-core/src/cpu/arm.rs:562-586 | MSR: of the flag byte and the control byte those named are taken, bit by bit, the mode follows its number, no register of any mode changes, and only the current mode's SPSR is written, which User and System do not have |
| Blocks.StmPlaces | candidates/gba-core/src/cpu/arm.rs:399-480 | for every list, with or without writeback: STM puts register i at start + 4 * (number of lower listed registers), from the user bank with S set, the base as it was and PC one word further ahead |
| Blocks.LdmLoads | candidates/gba-core/src/cpu/arm.rs:399-480 | for every list, with or without writeback: LDM loads each listed register of the transfer mode from its place, writes back an unlisted base, touches no other cell, and jumps if PC is listed, with S set after restoring the status |
| Blocks.PlacesMean | candidates/gba-core/src/cpu/arm.rs:399-480 | the four addressing modes in numbers: which address register i has in IA, IB, DA and DB from the number of listed registers and of those below it, how far the base moves, and whose registers the S bit transfers |
| Blocks.StmKeeps | candidates/gba-core/src/cpu/arm.rs:399-480 | STM changes no other word of memory and no register but a base written back |
| Blocks.SameBlock | candidates/gba-core/src/cpu/arm.rs:415-426 | in all four modes the opposite transfer covers the same words and returns the base |
| Blocks.StmThenLdm | candidates/gba-core/src/cpu/arm.rs:399-480 | STM with writeback and the opposite LDM restore every listed register and the base, the user-bank form included |
| Machine.Cpu.SwitchMode | candidates/gba-core/src/cpu/mod.rs:168-195 | swapping arrays in place is the specified switch |
| Machine.Cpu.SetCpsrBits | candidates/gba-core/src/cpu/mod.rs:146-155 | masked status write, mode switch first |
| Machine.Cpu.FlushPipeline | candidates/gba-core/src/cpu/mod.rs:198-225 | refill of the two slots and PC in place |
| Machine.Cpu.TakeIrq | candidates/gba-core/src/cpu/mod.rs:310-327 | entry in place: mode, saved status, link register, T, I, vector and pipe |
| Machine.Cpu.ArmSwi | candidates/gba-core/src/cpu/arm.rs:618-630 | entry by SWI in place, to the state Effects.ExceptionsMean describes |
| Machine.Cpu.ArmDataProcessing | candidates/gba-core/src/cpu/arm.rs:132-247 | all sixteen opcodes in place, flags, PC as destination and the S-bit return; what each computes is Operations.DataProcessingMeans |
| Machine.Cpu.Compute | candidates/gba-core/src/cpu/arm.rs:165-221 | result and flags of each opcode: wrapping without the S bit, the flag helpers with it, carry from the shifter for logical ones (Operations.DataProcessingMeans) |
| Machine.Cpu.ArmBranch | candidates/gba-core/src/cpu/arm.rs:96-109 | branch and link in place |
| Machine.Cpu.ArmBx | candidates/gba-core/src/cpu/arm.rs:115-126 | branch and exchange in place (Effects.BxMeans) |
| Machine.Cpu.ArmBlockTransfer | candidates/gba-core/src/cpu/arm.rs:399-480 | the register-list loop in place, user bank, writeback rule and status restore |
| Machine.Cpu.ArmSingleTransfer | candidates/gba-core/src/cpu/arm.rs:282-345 | word and byte transfers in place: offset, indexing, rotation of a misaligned load, writeback, PC as destination |
| Machine.Cpu.ArmHalfwordTransfer | candidates/gba-core/src/cpu/arm.rs:351-393 | halfword and signed transfers in place |
| Machine.Cpu.ArmSwap | candidates/gba-core/src/cpu/arm.rs:592-612 | swap in place |
| Machine.Cpu.ArmMultiply | candidates/gba-core/src/cpu/arm.rs:486-516 | multiply and accumulate in place |
| Machine.Cpu.ArmMultiplyLong | candidates/gba-core/src/cpu/arm.rs:518-549 | the 64-bit multiplies in place |
| Machine.Cpu.ArmMrs | candidates/gba-core/src/cpu/arm.rs:555-560 | status read in place |
| Machine.Cpu.ArmMsr | candidates/gba-core/src/cpu/arm.rs:562-586 | status write in place, mode switch included |
| Machine.Cpu.ExecArm | candidates/gba-core/src/cpu/arm.rs:20-90 | decode and execute any ARM word in place (WordForms.WordsDecode for which word is which) |
| WordForms.WordsDecode | candidates/gba-core/src/cpu/arm.rs:20-90 | every instruction of every class, under every condition, is read back from the word that the architecture gives it bit by bit |
| BiosDiv.QuotRemTruncate | spec/gen_bios_stub.py:514-555 | quotient and remainder meet the defining relation of truncated division |
| BiosDiv.TruncatesUnique | spec/gen_bios_stub.py:514-555 | that relation has one solution |
| BiosDiv.Div | spec/gen_bios_stub.py:514-555 | the routine ends with the truncated quotient modulo 2^32, the remainder with the numerator's sign and the quotient's magnitude; a zero divisor leaves the numerator |
| BiosDiv.DivArm | spec/gen_bios_stub.py:558-562 | the same with exchanged operands |
| BiosDiv.Align | spec/gen_bios_stub.py:528-533 | the alignment loop reaches a shifted divisor not below the numerator and never leaves by its carry exit |
| BiosDiv.Magnitudes | spec/gen_bios_stub.py:522-541 | shift-subtract on magnitudes gives quotient and remainder |
| DivCode.RoutineDivides | spec/gen_bios_stub.py:514-555 | line by line, from the second line to the one before the last: for all operands the routine's instructions end with quotient, remainder and quotient's magnitude as promised |
| DivCode.Loops | spec/gen_bios_stub.py:535-541 | the compare, subtract, shift-in and halve loop ends with quotient and remainder of the magnitudes |
| DivRun.EmittedIsCode | spec/gen_bios_stub.py:514-555 | the words emitted for the lines decode to the instructions and branches meant |
| DivRun.Simulates | candidates/gba-core/src/cpu/mod.rs:251-308 | any number of lines of the routine is that many steps of the CPU, each of them in line and clear of the prefetched word |
| DivRun.DivOnCpu | spec/gen_bios_stub.py:514-555 | the emitted words, decoded and executed by the CPU with its pipe from the first line to the last branch, divide: r0, r1 and r3 hold the results, r4 to r14, mode and banks are as before, memory has changed only below the stack pointer, and the pipe is full |
| Unpack.LzUnpacks | spec/gen_bios_stub.py:852-861 | unpacking a packed LZ77 stream gives what its tokens stand for, overlapping references included, and stops behind it |
| Unpack.RlUnpacks | spec/gen_bios_stub.py:1016-1023 | the same for run-length streams |
| Decompress.Lz77UnComp | spec/gen_bios_stub.py:882-1014 | for a stream that does not overlap its output the loop writes the specified bytes, zero-filling an odd length in video memory, and nothing else; what they are from the bytes of header and stream is Decompress.Lz77Restores |
| Decompress.RlUnComp | spec/gen_bios_stub.py:1038-1139 | the same for run lengths, with Decompress.RlRestores |
| Decompress.Lz77Restores | spec/gen_bios_stub.py:851-1014 | from the bytes in memory: with [type, n % 256, n / 256 % 256, n / 65536] and behind it a packed stream for at least n bytes, memory ends up with exactly the first n bytes the tokens stand for, a zero behind an odd length in video memory, and is otherwise unchanged |
| Decompress.RlRestores | spec/gen_bios_stub.py:1016-1139 | the same for run lengths |
| Decompress.Lz77Ready | spec/gen_bios_stub.py:891-893 | the routine's demand that stream and output lie apart, from the same bytes |
| Unpack.LzBlockMeans | spec/gen_bios_stub.py:897-1003 | one block from its bytes: by the highest flag bit one literal byte, or a run of high nibble + 3 bytes each equal to the one (low nibble * 256 + second byte + 1) before it |
| Unpack.RlBlockMeans | spec/gen_bios_stub.py:1053-1128 | one block from its bytes: flag + 1 literal bytes below 128, else flag - 125 copies of one byte |
| Decompress.Unpacker.Emit | spec/gen_bios_stub.py:913-942 | a byte goes to memory at once, or is held until its halfword is complete |
| Decompress.Unpacker.Fetch | spec/gen_bios_stub.py:965-986 | a back-reference reads the held byte when it points at it |
| Decompress.Unpacker.CopyBack | spec/gen_bios_stub.py:957-1003 | the copy loop appends the repeated window, cut off at the declared length |
| Decompress.VideoMatchesRam | spec/gen_bios_stub.py:882-1014 | video memory ends with the same bytes as RAM plus one zero for an odd length |
| Decompress.LzKeeps | spec/gen_bios_stub.py:882-1014 | nothing before the destination changes |
| Decompress.RlKeeps | spec/gen_bios_stub.py:1038-1139 | nothing before the destination changes |
| Decompress.Lz77RoundTrip | spec/gen_bios_stub.py:882-1014 | a packed stream behind a matching header is unpacked to what was packed |
| Decompress.RunLengthRoundTrip | spec/gen_bios_stub.py:1038-1139 | the same for run lengths |
| Encoding.SplitJoin | candidates/gba-core/src/cpu/arm.rs:20-24 | the fields of a word are recovered from it |
| Encoding.RotationFound | spec/gen_bios_stub.py:64-71 | the rotation search fails exactly if no even rotation of a byte is the immediate, and what it finds the shifter turns back into the immediate |
| Encoding.FindRotation | spec/gen_bios_stub.py:66-71 | the loop over sixteen rotations finds the first |
| Encoding.DecodesAll | spec/gen_bios_stub.py:64-299 | for every mnemonic, operand in range and condition, the decoder's dispatch and fields give back condition and instruction; an encoder fails only for an immediate without rotation |
| Encoding.ImmediateValue | candidates/gba-core/src/cpu/arm.rs:141-149 | the decoded immediate operand has the value that was assembled |
| Encoding.UncheckedImmediate | spec/gen_bios_stub.py:79-112 | of any number, laid bitwise over registers and opcode, the encoders that do not check their immediate make a word that decodes to the condition, mnemonic, registers and value meant exactly if it is 0 to 255 |
| Encoding.ListRoundTrip | spec/gen_bios_stub.py:312-312 | a register list summed from bits is read back as that list |
| Assembler.BranchLands | spec/gen_bios_stub.py:301-307 | a branch word decodes to its condition, link bit and distance, and taking it leads to the label with the return address in LR |
| Assembler.FilledAt | spec/gen_bios_stub.py:301-307 | after the fixups every word is the last branch left open at its address, or else what was emitted there |
| Assembler.WordIs | spec/gen_bios_stub.py:301-307 | however the origin moves, every word of the finished code is the last branch left open on it, even if something was emitted there later, else the last word emitted, else 0 |
| Assembler.DecidesIffLast | spec/gen_bios_stub.py:38-62 | of the items on a word exactly one decides it: a branch with no later branch there, or a word with no branch there at all and no later word |
| Assembler.AssembledRight | spec/gen_bios_stub.py:38-62 | an item that decides its word survives: an emitted word is still there after the fixups, and a branch within reach decodes to its condition and link bit and leads to its label |
| Assembler.ForwardDecides | spec/gen_bios_stub.py:38-62 | where the origin never moves back every item decides its word |
| Assembler.Asm.Instruction | spec/gen_bios_stub.py:64-299 | encode and emit in place, or fail and change nothing |
| Assembler.Asm.FixUp | spec/gen_bios_stub.py:301-307 | the fixup loop in place; it fails exactly for an unset label or an address outside the code |
| Eeprom.RunRefines | candidates/gba-core/src/save.rs:172-245 | any sequence of framed reads, writes and polls answers as a map from addresses to 64-bit blocks does and leaves the chip idle with cleared accumulators |
| Eeprom.ReadStep | candidates/gba-core/src/save.rs:130-150 | a framed read yields four zeros and the block, most significant bit first, whatever bits trail the command |
| Eeprom.WriteStep | candidates/gba-core/src/save.rs:224-239 | a framed write stores the 64 bits in the addressed block |
| Eeprom.GatherScattered | candidates/gba-core/src/save.rs:193-202 | a block loads as it was stored, byte order included |
| Eeprom.GatherUntouched | candidates/gba-core/src/save.rs:228-235 | a store leaves the bytes of every other block alone |
| Eeprom.ReadsBytes | candidates/gba-core/src/save.rs:130-150 | a read clocks out four zeros and then the bits of the block's eight bytes in order, each from its highest bit; bytes beyond the chip read as zero |
| Eeprom.WritesBytes | candidates/gba-core/src/save.rs:224-239 | a write puts the data bits eight to a byte, highest first, into the block's bytes in order, and changes no other byte |
| Eeprom.StopBitDesynchronises | candidates/gba-core/src/save.rs:224-239 | a stop bit after a write is taken for the first bit of the next command |
| Eeprom.StopBitLosesRead | candidates/gba-core/src/save.rs:184-221 | the next framed read is then refused and answered with ready bits |
| Eeprom.Save.EepromWriteBit | candidates/gba-core/src/save.rs:172-245 | one bit in place |
| Eeprom.Save.Read8 | candidates/gba-core/src/save.rs:130-150 | one output bit in place |
| Scanline.NextLeavesFewerDue | candidates/gba-core/src/bus.rs:490-511 | handling a due event leaves fewer due ones, so draining ends |
| FrameLoop.Gba.Tick | candidates/gba-core/src/bus.rs:490-511 | advance and drain in place |
| FrameLoop.Gba.OnHBlank | candidates/gba-core/src/ppu.rs:239-257 | line drawing, flag, interrupt and next event in place |
| FrameLoop.Gba.OnHDraw | candidates/gba-core/src/ppu.rs:259-290 | line counter, three flags, interrupts and next event in place |
| FrameLoop.Gba.RunFrame | candidates/gba-core/src/gba.rs:73-101 | the frame loop with its cap in place |
| Frames.StepMoves | candidates/gba-core/src/bus.rs:490-511 | from a sound state a burst leaves exactly one event queued, the flags right, and handles at most that event |
| Frames.FrameCompletes | candidates/gba-core/src/gba.rs:73-101 | from any sound state, with bursts of at most 1853 cycles, a frame ends at the vertical blank and not by the cap, having drawn the lines still due |
| Frames.BlankToBlank | candidates/gba-core/src/ppu.rs:239-290 | between vertical blanks lines 0 to 159 are drawn once each in order and 280896 to 280896 + 456 (M - 1) cycles pass |
| Frames.RunDraws | candidates/gba-core/src/gba.rs:73-101 | so after every number of frames from power-on |
| Frames.RunSpacing | candidates/gba-core/src/gba.rs:73-101 | and so between any two successive frames of a run |
| Frames.RestAt | candidates/gba-core/src/ppu.rs:242-243 | the i-th line of a frame is line i, and there are 160 |
| Frames.FrameRequests | candidates/gba-core/src/ppu.rs:274-279 | with the interrupt enabled a frame requests the vertical blank exactly once |
| Requests.StepAsks | candidates/gba-core/src/ppu.rs:252-288 | a burst requests exactly what the half-line it enters does under the settings then in force, and at the start of a line the V-counter flag says whether it is the line compared |
| Requests.FrameAsks | candidates/gba-core/src/ppu.rs:252-288 | under constant settings a frame requests exactly what its half-lines do, in their order: the match before the vertical blank, horizontal blanks between |
| Requests.FrameCounts | candidates/gba-core/src/ppu.rs:252-288 | from one vertical blank to the next that is 228 horizontal blanks, one match if that line exists and one vertical blank, each if enabled |
| Frames.CapFires | candidates/gba-core/src/gba.rs:7-7 | for any bound on bursts: all frames of all runs from power-on end at a vertical blank, none by the cap, exactly if it is at most 1853 cycles |
| Frames.FrameCapped | candidates/gba-core/src/gba.rs:73-101 | for each longer bound, bursts with which a frame from a vertical blank ends by the cap |
| RefCache.BytesRoundTrip | harness/grader/src/ref_cache.rs:172-177 | framebuffers survive being stored as bytes |
| Recording.RecordingMeans | harness/grader/src/ref_cache.rs:148-207 | byte b of pixel p of frame i stands at 4 (38400 i + p) + b, low byte first; sounds follow each other without gap, each noted by its number of pairs; rate and boot frames are those after the run, the version is 7 |
| Recording.PastTheEnd | harness/grader/src/ref_cache.rs:314-352 | beyond its end a recording shows its last picture on, or black if it has none, and plays nothing |
| RefCache.AcceptedIffEven | harness/grader/src/ref_cache.rs:262-281 | loading accepts a fresh recording exactly if every drain held an even number of samples |
| RefCache.PlayerStep | harness/grader/src/ref_cache.rs:314-352 | frame i of the player shows frame i and plays its drain; the audio offset is the prefix sum |
| RefCache.CachedMatchesLive | harness/lockstep/src/lib.rs:189-351 | for any deterministic reference, candidate and number of recorded frames, lockstep with an accepted cache gives the same output as with the live reference, exactly if the audio rate noted after recording is the one before |
| RefCache.ThresholdsAgree | harness/grader/src/ref_cache.rs:190-192 | the thresholds baked into the cache are those lockstep derives |
| RefCache.Load | harness/grader/src/ref_cache.rs:245-283 | stale on version or hashes, corrupt on lengths, otherwise the cache |
| RefCache.Write | harness/grader/src/ref_cache.rs:148-207 | the recording loop computes the recorded cache |
| RefCache.CachedReference.RunFrame | harness/grader/src/ref_cache.rs:314-332 | cursor and framebuffer in place |
| RefCache.CachedReference.DrainAudio | harness/grader/src/ref_cache.rs:342-352 | audio offset in place |
| Lockstep.RoundsAgree | harness/lockstep/src/lib.rs:226-303 | references that show and play the same give the same tally against any candidate |
| Tallies.OutcomeMeans | harness/lockstep/src/lib.rs:189-351 | the report of n frames from what both sides show and play: n defects, worst for a flat candidate against a reference that is not and else ssim of the two pictures; n luma values, run starts and loudness ratios; the sounds joined; the reference's own defects where it moved; number, pixels, first and greatest (the first of these) of the frames in which more than 8 pixels differ in five-bit colour; thresholds, scores and rate from those |
| Tallies.DifferingCounts | harness/lockstep/src/lib.rs:135-148 | the count of differing pixels is the size of the set of places where some five-bit colour differs |
| Tallies.CallsMade | harness/lockstep/src/lib.rs:207-303 | the calls each emulator sees: boot frames run and drained, then per frame keys, frame, drain |
| Lockstep.Lockstep | harness/lockstep/src/lib.rs:189-351 | the comparison loop over two mutable emulators computes the specified output, whose every entry Tallies.OutcomeMeans gives from the two emulators' pictures and sounds |
| Lockstep.Compare | harness/lockstep/src/lib.rs:249-287 | defect with the blank-frame gate, divergence counters, run flags and reference defects of one frame (Tallies.OutcomeMeans) |
| Lockstep.DiffFrame | harness/lockstep/src/lib.rs:140-148 | pixels that differ in five-bit colour |
| Replay.KeysAt | harness/lockstep/src/replay.rs:55-65 | the scan with early exit finds the keys held |
| Replay.KeysFromIs | harness/lockstep/src/replay.rs:55-65 | in a sorted log the most recent event not after the frame wins |
| Replay.FromText | harness/lockstep/src/replay.rs:72-88 | the events of the well-formed lines, sorted by frame |
| Replay.RoundTrip | quickstart/services/oracle-server.py:161-166 | reading a printed log back gives the log, exactly if all frame numbers fit in 32 bits, in whatever order an unstable sort leaves equals |
| Replay.PrintedLine | quickstart/services/oracle-server.py:161-166 | a printed event is its frame in decimal, a space, its keys in four hexadecimal digits and a line break |
| Replay.NumbersParse | harness/lockstep/src/replay.rs:72-88 | a line of two numbers is an event exactly if the frame fits 32 bits and the keys 16 |
| Replay.CommentIgnored | harness/lockstep/src/replay.rs:72-88 | a hash ends a line |
| Session.Server.SetKeys | quickstart/services/oracle-server.py:507-537 | range check, look-up and event-count check in that order, coalescing of events of one frame, time of activity |
| Session.Server.RunFrames | quickstart/services/oracle-server.py:205-259 | write the log, re-run from power-on, keep picture and sound; on failure nothing changes, and a session removed while the subprocess runs is not found at its end |
| Session.TimelineIsHistory | quickstart/services/oracle-server.py:137-152 | whatever idle sessions are removed when, as long as the session is there it is what the accepted requests make of it |
| Session.VanishesIff | quickstart/services/oracle-server.py:251-254 | a run that works is answered not found exactly if the removing thread passed during it more than 30 minutes after the activity before it, and is kept otherwise |
| Session.SafeIff | quickstart/services/oracle-server.py:205-259 | so a run is safe from removal, whenever the thread passes, exactly if it ends within 30 minutes of the activity before it |
| Session.OracleRun | harness/oracle/src/main.rs:196-217 | the oracle's run over a log read from text |
| Session.StepTracks | quickstart/services/oracle-server.py:523-536 | every request keeps the log strictly increasing, not beyond the current frame, and the session in step with a running emulator |
| Session.Refusals | quickstart/services/oracle-server.py:205-259 | which requests are refused: keys beyond 16 bits or a full log, counts outside 1 to 100000, frame numbers beyond 32 bits or a failing subprocess; a refused one changes nothing |
| Session.RerunMatchesLive | quickstart/services/oracle-server.py:205-259 | after any history of requests the picture from re-running equals that of one emulator stepped live, and the sound is all sound since frame 0 |
| Session.AudioSinceRead | quickstart/services/oracle-server.py:78-78 | after frames were run the sound kept is the sound since the last read, as documented, exactly if nothing had been played before that read |
| Session.SoundReadTwice | quickstart/services/oracle-server.py:255-255 | a concrete history in which the same sound is given twice |

## Left out

- Pipeline.StepRefines: the step is modelled on values; the class in `Machine` decodes and executes in place but has no step of its own.
- ArmRuns.ArmRunRefines: Thumb instructions are a parameter, of which the condition on a run asks that they change PC and T through flushes.
- Assembler.WordIs: addresses are multiples of four; the data tables that the BIOS builder writes bytewise are not assembled.
- Session.TimelineIsHistory: one session; tokens, rate limits and the number of sessions are not modelled, and a subprocess failure is an input.
- Decompress.Lz77UnComp: the routine is a loop over registers as the assembler lays it out; of the emitted words only the division's and the interrupt handler's are run on the CPU (`DivRun.DivOnCpu`, `IrqRun.IrqServed`).
- DivRun.DivOnCpu: no interrupt comes while the routine runs; `IrqRun.IrqServed` is about one between two instructions.
- IrqRun.IrqServed: the I/O registers are memory here, so reading the interrupt flags has no further effect; the program's handler is any run that keeps to its part.
- Frames.FrameCompletes: interrupts and DMA triggered by the events may write the status register only between bursts; what they do otherwise is part of the next burst. Whether the CPU is halted, and the late enabling of the vertical blank interrupt (candidates/gba-core/src/gba.rs:58-71), are inputs too.
- The PSG channels behind the mixer are a step function with bounded outputs; envelopes, sweep and the frame sequencer are not part of this model.
- Samples are kept as integers; the division by 32768 into floating point is left out.
- SSIM, log-mel, sigmoid scores and the run-collapsed score are parameters of lockstep: floating point.
- Undefined instructions, FIQ, aborts, wait states and cycle counts of instructions: no theorem here needs them.
- The PPU's pixels and affine counters, Flash, SRAM, GPIO, wave RAM, DMA other than sound FIFO refills: bulk or easier members.
- Termination of immediate DMA: a repeating immediate channel is never disabled (candidates/gba-core/src/bus.rs:602-609), so there is nothing to prove.
- BIOS square root, arctangent, Huffman and affine setup: the emitted code departs from its description (spec/gen_bios_stub.py:573, spec/gen_bios_stub.py:1519, spec/gen_bios_stub.py:1789, spec/gen_bios_stub.py:1311-1313).
- Files, compression, hashes, HTTP, command lines, the video encoder: input and output.
- Text logs with whitespace beyond ASCII, and the JSON form of a replay.
