# microarch in Dafny

microarch is an 8-bit instruction set with register sets as operands and a condition on every instruction. The
repository implements it three times: an interpreter in C++, a native compiler for x86-64, and a three-stage pipelined
core in Verilog. An assembler, a linker and a disassembler connect text to machine code. This project puts one abstract
instruction set in the centre and proves that the other parts agree with it, or states exactly where they do not.

`dafny verify dfyconfig.toml` checks everything.

## The parts

| files | what they hold |
|---|---|
| Isa, Arithmetic, Interpreter | instruction set and machine state; what its operations mean in numbers and bits; `apply`, `run` and the interpreter as the object it is |
| X86, JitCode | the x86-64 fragment as a step machine; the emitted code as functions of program and memory configuration |
| JitRegisters, JitBlocks, JitLayout, JitMemory, JitPeripherals, JitDispatch, JitStep, JitSimulation, JitCorrect, JitEntry, JitTheorems | forward simulation from single emitted sequences up to whole native calls |
| JitWriter | the compiler as it runs, filling a code buffer |
| Pipeline, PipelineRefinement, PipelineTheorems, PipelineControl, PipelineRtl | the pipelined core clock by clock, its decoders and control register, its refinement by draining, its progress, and the clocked objects |
| CoreMemory, CoreMemoryRefinement, CoreMemoryClock, CoreMemoryTheorems, CoreMemorySpacing, CoreMemoryOverlaps | the core wired to its memory: loads and stores in the pipeline |
| MemorySystem, MemoryRtl | memory unit, data RAM and GPIO block, their transactions as a byte array, and the clocked objects |
| Encoding, Linker | instruction bytes, the reader, the writer and its linking |
| Parsing, Elaboration, Words, Assembler | the token cursor, what a source and its words mean, and the assembler that computes it |
| Scanning, Lexemes, Coverage, Tokenizer | how text falls into tokens, which texts are tokens, what lies between them, and the tokenizer that finds them |
| Listing, ListingColumns, ListingReading, ListingLexing, ListingRoundTrip | the disassembly, what a reader finds in it, and its way back through tokenizer, parser and linker |
| SourceText, HexText | the line table of a source, the hexadecimal file form |

## How it fits together

*Shared meaning.* The interpreter computes in ints that are narrowed to bytes, the x86 machine shifts one place at a time,
the hardware subtracts in nine bits and shifts in stages, and the instruction set has operators on bytes. They are compared
with each other and, in `Arithmetic`, with sums, differences and quotients of numbers and with single bits. `Words`,
`Lexemes` and `ListingReading` do the same for the tables that assembler, tokenizer and disassembler share.

*Native compiler.* `JitCode.Unit.Code` is the emitted code, `JitCode.Unit.IsImage` says that an image is this code with
every label in its place, and `JitWriter.CodeBuffer.Compile` is proved to produce such an image. `X86` runs it: labels
and byte offsets are resolved through encoded instruction sizes, undefined flag bits and the registers a host call may
destroy take arbitrary values, and a step without a defined outcome does not exist. `JitBlocks.Match` is the simulation
relation: the low bytes of R8 to R15 are the micro registers, bits 0 and 6 of SI are carry and zero, the data area is RAM.
An instruction on an empty register set may have no native code at all, so a single interpreter step can take zero native
steps; `JitTheorems.StepsSimulate` bounds how often.

*Pipeline.* `PipelineRefinement.Drained` lets stages 3 and 2 finish and keeps stage 1. One clock changes the drained
state by the instruction it issues or not at all. The invariant that carries this is not local to a stage: the ALU
recomputes the flags from its latches on every clock, which is harmless because after a comparison has left stage 2 the
flag registers already hold that result.

*Memory unit.* Nothing is assumed about earlier requests: the invariant holds for every request pattern, and a
transaction needs only that no operation is under way and none was answered on the last clock.

*Core with memory.* `CoreMemoryRefinement.DrainedAll` also lets the memory operation under way finish. A request counts as
carried out from the clock that accepts it. One clock keeps this drained state equal to the sequential machine exactly if
its request is harmless (`CoreMemoryRefinement.Harmless`); a run is calm when all its requests are, none goes to the input
port and no `cid` is read too early. `CoreMemorySpacing.Spaced` is a condition on the sequential run alone that makes every
hardware run calm. A comparison behind a waiting instruction fills the latches one clock early; because the wait lasts a
single clock the flag registers follow only once the comparison is in stage 2.

*Assembler.* `Elaboration.Elab` gives each instruction the condition of its own prefix, else that of the innermost
enclosing `if`, else T, by passing the condition down; `Assembler` keeps a stack and computes the same.

## Where parts disagree

| where | exactly when they agree |
|---|---|
| native `nad` negates, the interpreter complements | `JitBlocks.NadAgreesExactly` |
| native `ctr` uses the bitwise complement of the mask and the old CL, the interpreter the logical negation and the control byte | `JitStep.StandbyAgreesExactly` |
| segmented memory with a peripheral at address 3 | `JitPeripherals.TablesAgreeExactly` |
| conditions without a name | `JitWriter.CodeBuffer.WriteConditional` |
| splitting a run that entered standby | `Interpreter.RunsComposeExactly`, `Interpreter.ResumingOnce`; an instance is `Interpreter.StandbyBreaksComposition` |
| `cid` clears registers 0 to 3 and the hazard logic announces 4 to 7 | `PipelineRefinement.OperandsPastExactly`, `PipelineTheorems.CidHazardExactly`; an instance is `PipelineTheorems.CidIsReadTooEarly` |
| memory instructions close together in the pipeline | `CoreMemoryClock.ClockAllRefinesExactly`, `CoreMemoryTheorems.CoreFollowsExactly`; an instance is `CoreMemoryOverlaps.SecondStoreIsLost` |
| writes to the input port | `MemorySystem.AnsweredExactly` |
| requests right behind an answer | `MemorySystem.AnsweredRightlyExactly`; an instance is `MemorySystem.LingeringAnswer` |
| labels past 65535 bytes | `Linker.TargetExactly`, `Elaboration.AssembledJumps` |
| listings that do not assemble back | `ListingRoundTrip.ListingRoundTrips` |

Two comments in the repository say something else than the code, and the model follows the code: `src/writer.cpp:131-134`
says that only three bits of a shift count are used, but interpreter, native code and ALU use the whole byte; and
`src/source/parser.hpp:235-238` says that the terminal token is part of the sub-parser, but it is not.

## Model

| member | source | states |
|---|---|---|
| Isa.ReadSetBit | src/reader/state.cpp:82-95 | a read of a register set has a bit on exactly when some register named by the set has it on |
| Isa.OrTree | base-core/design/core/register_bank.v:38-39 | the interpreter's OR loop and the flat eight-input OR tree of the read bus compute the same byte |
| Isa.ReadAfterWrite | src/reader/state.cpp:82-107 | reading a set does not see a write to a disjoint set, for all masks and contents |
| Arithmetic.ArithmeticMeans | src/reader/instruction.hpp:93-244 | what each operation is named for, whatever way it is written: `add` the sum and `cmp` the difference modulo 256, `shr` the quotient by a power of two for every count, the logical operations bit by bit; every register of the first set gets it, no other changes, and only `cmp` sets the flags |
| Arithmetic.AddMeans | src/reader/instruction.hpp:127 | the number of the sum is the sum of the numbers modulo 256 |
| Arithmetic.MinusMeans | src/reader/instruction.hpp:96-100 | the number of the difference is the difference of the numbers modulo 256 |
| Arithmetic.ShiftMeans | src/reader/instruction.hpp:174 | the shifted byte is the quotient by two to the count, for every count up to 255 |
| Arithmetic.ShiftBit | src/reader/instruction.hpp:174 | bit by bit, what stood `count` places higher, and nothing from a count of eight on |
| Arithmetic.HasIsDigit | src/reader/state.cpp:82-95 | a set holds register i exactly if that binary digit of its number is one |
| Arithmetic.BitIsPower | src/reader/state.cpp:82-95 | bit i of a set is worth two to the i |
| Arithmetic.ControlMeans | src/reader/instruction.hpp:269 | the control byte after `ctr`, bit by bit: the bits of the value under the mask, and bit 0 of the old byte when the mask is empty |
| Arithmetic.CellMeans | src/reader/instruction.hpp:381-398 | in segmented memory the byte in cell 3 selects which 256 cells an address falls into; cell 3 itself is the same in all |
| Interpreter.CoreState.Read | src/reader/state.cpp:82-95 | the accumulator loop returns the OR of the registers in the set |
| Interpreter.CoreState.Write | src/reader/state.cpp:97-107 | the loop gives every register in the set the value and leaves the others |
| Isa.NamedConditions | src/writer.hpp:64-78 | what the names promise under the flag test: E is zero, NE not zero, C carry, NC no carry, NBE neither, T always, F never |
| Isa.UnnamedConditions | src/reader/instruction.cpp:33-36 | of the nine nibbles without a name exactly three can hold, and for which flags |
| Isa.ConditionBits | src/writer.hpp:15-78 | the bits of the named conditions: 8 and 4 allow the zero flag to be on and off, 2 and 1 the carry |
| Interpreter.CoreState.Compare | src/reader/instruction.hpp:93-101 | the whole state after `cmp`; the written byte is the difference modulo 256, carry is the smaller first operand, zero is equality |
| Interpreter.DifferenceFlags | src/reader/instruction.hpp:96-100 | the 64-bit reinterpretation of the signed difference exceeds 0xFF exactly when the first operand is smaller, and its low byte is the difference modulo 256 |
| Interpreter.ReinterpretedIs | src/reader/instruction.hpp:96-97 | the reinterpreted difference fits 64 bits and differs from the signed one by a multiple of two to the 64 |
| Interpreter.CoreState.LoadFrom | src/reader/instruction.hpp:438-456 | the whole state after `ldm`: peripheral, segment and plain cases |
| Interpreter.CoreState.StoreTo | src/reader/instruction.hpp:381-398 | the whole state after `stm`: exactly one RAM cell or one peripheral event |
| Interpreter.CoreState.Jump | src/reader/instruction.hpp:324-356 | the whole state after an immediate or register jump |
| Interpreter.CoreState.SetControl | src/reader/instruction.hpp:267-270 | the whole state after `ctr`, and every bit of the control byte |
| Interpreter.CoreState.Arithmetic | src/reader/instruction.hpp:125-244 | the whole state after each read-compute-write operation, the result in numbers or bits |
| Interpreter.CoreState.ApplyInstruction | src/reader/instruction.hpp:93-518 | the object after `apply` is the instruction set's next state |
| Interpreter.CoreState.Run | src/reader/state.cpp:139-167 | the loop with budget, halt, breakpoints and standby leaves the state of the run function |
| Interpreter.HaltLeavesOne | src/reader/state.cpp:150-156 | a run that falls off the program leaves one in the standby field and the rest of the state and of the control byte as they were |
| Interpreter.StandbyFieldMeans | src/reader/state.cpp:140-153 | the standby field is the control byte divided by 32; clearing and halting change nothing else |
| Interpreter.LoopIsStepping | src/reader/state.cpp:144-166 | a run stops exactly where plain stepping is after RunLength instructions; it ends early only on halt, standby or a breakpoint, and passes no breakpoint on its way |
| Interpreter.BreakpointsAreTransparent | src/reader/state.cpp:139-167 | for programs without `ctr`, any series of run calls with any breakpoints and budgets ends where plain stepping ends after as many instructions as they executed together |
| Interpreter.RunMakesProgress | src/reader/state.cpp:159-165 | a call that starts on a breakpoint still executes at least one instruction |
| Interpreter.RunsComposeExactly | src/reader/state.cpp:139-167 | run(i); run(j) equals run(i + j) on everything but the control byte if and only if the first call did not end in standby, or nothing is left to resume: no budget, no program, or instructions that lead back to where they started |
| Interpreter.ResumingOnce | src/reader/state.cpp:139-167 | after a first call that ended in standby, one more instruction of budget splits harmlessly if and only if that instruction is a taken jump to itself |
| JitRegisters.ReadEffect | src/reader/instruction.cpp:46-68 | for every set, the emitted move/or sequence leaves the interpreter's read value in the target and changes nothing but flags |
| JitRegisters.WriteEffect | src/reader/instruction.cpp:70-78 | for every set and source, the emitted moves give the micro registers of the interpreter's write and touch nothing else |
| JitBlocks.BlockTwoArg | src/reader/instruction.hpp:134-233 | native `add`, `xor` and `and` relate matching states to matching states |
| JitBlocks.BlockMov | src/reader/instruction.hpp:157-162 | native `mov` does what the interpreter does |
| JitBlocks.BlockShr | src/reader/instruction.hpp:181-187 | native `shr` does what the interpreter does for counts below 32 |
| JitBlocks.ShiftedIsShift | src/reader/instruction.hpp:181-187 | shifting one place at a time, as the processor counts, gives the instruction set's result |
| JitBlocks.BlockCmp | src/reader/instruction.hpp:107-116 | native `cmp`: difference written back, and the flags arrive in bits 0 and 6 of SI through the stack |
| JitBlocks.BlockConstant | src/reader/instruction.hpp:310-507 | native `set` and `cid` do what the interpreter does |
| JitBlocks.NadAgreesExactly | src/reader/instruction.hpp:241-258 | native and interpreted `nad` agree if and only if the instruction writes no register |
| JitLayout.TableEntry | src/reader/state.cpp:169-178 | entry i of a table of padded jumps starts exactly 8 * i encoded bytes behind the table |
| JitLayout.AllowedSizes | src/reader/state.cpp:169-178 | jumps of one to eight encoded bytes are allowed, and no others |
| JitLayout.OffsetTableLeadsToBlocks | src/reader/state.cpp:223-277 | for every program, INSTRUCTION_OFFSETS + 8 * i holds the jump to the block of instruction i, and entry rom.size() the jump to the end label |
| JitLayout.JumpThroughTable | src/reader/instruction.hpp:337-372 | an indirect jump through the table lands on a block boundary and changes nothing else |
| JitMemory.MemoryTablesAre | src/reader/state.cpp:374-399 | entry x of both 256-entry tables is a jump to the helper that serves address x |
| JitMemory.ReadHelperRuns | src/reader/state.cpp:322-327 | the plain read helper returns the interpreter's cell, segmented or not |
| JitMemory.WriteHelperRuns | src/reader/state.cpp:329-335 | the plain write helper changes exactly the interpreter's cell |
| JitMemory.SegmentReadRuns | src/reader/state.cpp:344-346 | the segment register is read at its own address in every segment |
| JitMemory.SegmentWriteRuns | src/reader/state.cpp:339-342 | the segment register is written at its own address in every segment |
| JitPeripherals.SegmentTestRuns | src/reader/state.cpp:312-320 | with a segment selected a peripheral helper continues as the plain one |
| JitPeripherals.PeripheralCallRuns | src/reader/state.cpp:348-371 | a peripheral helper causes exactly one peripheral event and preserves SI, the micro registers and the stack across the host call |
| JitPeripherals.CallThroughTable | src/reader/instruction.hpp:413-427 | a call into a memory table reaches the helper for the address with the return address on the stack |
| JitPeripherals.TablesAgreeExactly | src/reader/state.cpp:376-398 | tables and interpreter send an access to the same place if and only if no peripheral is shadowed by the segment register |
| JitDispatch.LoadDispatchedRuns | src/reader/instruction.hpp:470-477 | a dispatched `ldm` gives the interpreter's registers, memory and peripheral history |
| JitDispatch.StoreDispatchedRuns | src/reader/instruction.hpp:411-422 | a dispatched `stm` gives the interpreter's memory and peripheral history and restores SI |
| JitDispatch.LoadPlainRuns | src/reader/instruction.hpp:478-483 | `ldm` on plain memory |
| JitDispatch.StorePlainRuns | src/reader/instruction.hpp:423-428 | `stm` on plain memory |
| JitStep.SkipExactly | src/reader/instruction.cpp:101-126 | for the five tested conditions, the native skip is taken exactly when the interpreter's flag test fails |
| JitStep.ConditionRuns | src/reader/instruction.cpp:87-136 | the emitted condition test enters the body exactly when the flag test holds, and otherwise reaches the skip label |
| JitStep.StandbyAgrees | src/reader/instruction.hpp:276-290 | if the mask of a `ctr` covers all standby bits or the value sets one it lets through, native code stops exactly when the interpreter does, whatever CL held |
| JitStep.StandbyAgreesExactly | src/reader/instruction.hpp:269-288 | they agree for every content of CL if and only if the mask covers all standby bits or the value sets one it lets through |
| JitSimulation.JumpBodyRuns | src/reader/instruction.hpp:337-372 | a native jump reaches the block of the interpreter's new pc |
| JitSimulation.ControlBodyRuns | src/reader/instruction.hpp:276-290 | a native `ctr` records the resume point and leaves through the exit, or falls through |
| JitSimulation.LoadBodyRuns | src/reader/instruction.hpp:463-485 | native `ldm` for every memory configuration |
| JitSimulation.StoreBodyRuns | src/reader/instruction.hpp:404-429 | native `stm` for every memory configuration |
| JitSimulation.StraightBodyRuns | src/reader/instruction.hpp:107-507 | the native body of every operation without control transfer |
| JitCorrect.StepSimulates | src/reader/instruction.hpp:93-528 | forward simulation: one interpreter step is one run through one native block, into a matching state at the block of the new pc |
| JitEntry.EntryRuns | src/reader/state.cpp:192-221 | the prologue saves the caller's registers, takes the core's state over and reaches the block of its pc |
| X86.CalleeSaved | src/reader/state.cpp:192-221 | a call into the host leaves arbitrary exactly the registers that are not the stack pointer, RBX, RBP or R12 to R15 |
| X86.HostFlagsMean | src/reader/state.cpp:57-59 | the flag word that the host writes is 64 for zero plus one for carry |
| X86.AluNumbers | src/reader/instruction.hpp:107-138 | the processor's sum, difference and negation as numbers modulo 256 |
| X86.AluFlags | src/reader/instruction.hpp:107-116 | carry is on exactly when the result leaves the byte, and zero exactly for the result zero |
| X86.ShiftFlags | src/reader/instruction.hpp:181-187 | a shift by a count whose low five bits are zero leaves the flags alone |
| JitEntry.ExitRuns | src/reader/state.cpp:243-266 | the exit hands registers, flags, memory and resume point to the host and restores the caller's stack and registers |
| JitEntry.EndRuns | src/reader/state.cpp:235-241 | falling off the end records the program size as resume point |
| JitTheorems.StepsSimulate | src/reader/state.cpp:139-277 | any number of interpreter steps is matched by native steps, and at most rom.size() of them in a row have no native code |
| JitTheorems.NativeCallIsRun | src/reader/state.cpp:181-422 | compiler correctness: a native call returns whenever `run` halts, with exactly the registers, flags, memory, pc and ordered peripheral history of `run`, and the caller's stack and callee-saved registers restored |
| JitTheorems.NativeKeepsRunning | src/reader/state.cpp:181-277 | as long as `run` has not stopped native code has not returned, and it cannot stand still |
| JitTheorems.AllowedProgramsAgree | src/reader/state.cpp:181-422 | compiler correctness from conditions on the program text alone: for plain or fully backed segmented memory without a shadowed peripheral, and instructions the two sides agree on, native calls and `run` agree on every input state |
| JitTheorems.ReturnsExactlyWhenHalting | src/reader/state.cpp:139-277 | a native call returns if and only if `run` halts |
| JitWriter.CodeBuffer.ReadRegistrySet | src/reader/instruction.cpp:46-68 | the loop that shifts the set out appends the register-read code |
| JitWriter.CodeBuffer.WriteRegistrySet | src/reader/instruction.cpp:70-78 | the loop that shifts the set out appends the register-write code |
| JitWriter.CodeBuffer.WriteConditional | src/reader/instruction.cpp:87-127 | fails exactly on the nine nibbles without a name, else appends the condition test |
| JitWriter.CodeBuffer.EmitInstruction | src/reader/instruction.cpp:129-136 | appends the block of an instruction and binds the skip label behind it exactly when a test was emitted |
| JitWriter.CodeBuffer.PadCode | src/reader/state.cpp:169-178 | appends the jump and as many one-byte no-operations as fill eight bytes |
| JitWriter.CodeBuffer.EmitMemoryTable | src/reader/state.cpp:376-399 | appends the entry of the right helper for each of the 256 addresses |
| JitWriter.CodeBuffer.EmitBlocks | src/reader/state.cpp:223-233 | succeeds exactly on programs that compile, with the blocks in order and their labels bound |
| JitWriter.CodeBuffer.Compile | src/reader/state.cpp:181-422 | the compiler fails exactly when some non-`nop` instruction has an unnamed condition, and otherwise leaves exactly the image whose execution is proved correct |
| Pipeline.BusIsReadSet | base-core/design/core/register_bank.v:31-39 | the gated OR tree on a read bus is the instruction set's register read |
| PipelineRefinement.FlagsAllowIsCheck | base-core/design/core/cu/id_stage_1.v:49-52 | the hardware condition is the interpreter's flag test |
| PipelineRefinement.DifferenceBit | base-core/design/core/alu.v:23 | bit 8 of the nine-bit difference is the borrow |
| PipelineRefinement.AluOutIsAlu | base-core/design/core/alu.v:17-28 | the hardware's own sum, difference, logic and shifter give the instruction's result for its control code |
| PipelineRefinement.AluOutComputes | base-core/design/core/alu.v:38-60 | for every control code the result in numbers or bits, carry exactly on a smaller first operand, zero exactly on equality |
| PipelineControl.ReadsMeans | base-core/design/core/cu/id_stage_1.v:66-75 | stage 1 waits for exactly the register sets that its operation reads |
| PipelineControl.WritesMeans | base-core/design/core/cu/id_stage_2.v:14-16 | stages 2 and 3 announce exactly the sets that their operation writes, and flags only for `cmp` |
| PipelineControl.KindsMean | base-core/design/core/cu/id_stage_2.v:11-16 | memory, jump and arithmetic operations are told apart by their codes |
| PipelineControl.FinishedMeans | base-core/design/core/cu/id_stage_1.v:64 | stage 1 finishes alone what it skips, jumps, control writes and `nop` |
| PipelineControl.WordsAndAddresses | base-core/design/core/cu/cu.v:61 | sixteen address bits, a reset address one before zero, and a bubble that is the word of zeros |
| PipelineControl.FlagDependentMeans | base-core/design/core/cu/id_stage_1.v:49-52 | stage 1 waits for flags unless the condition treats both values of each flag alike |
| PipelineControl.ControlMeans | base-core/design/core/cu/cu.v:67-90 | the control register after a clock, bit by bit: an executing `ctr` replaces the bits of its mask, an interrupt clears the upper half |
| PipelineControl.InterruptTaken | base-core/design/core/cu/cu.v:86-90 | an enabled interrupt sends the program counter to address 1, disables further ones and wakes a stopped core |
| PipelineControl.StoppedStands | base-core/design/core/cu/cu.v:92-107 | a stopped core issues nothing, empties its stages and keeps its counter; only stage 3 is still written back |
| PipelineRefinement.OperandsPastExactly | base-core/design/core/cu/cu.v:39-53 | when stage 1 is not held, its read buses carry what the registers will hold once stages 2 and 3 have written back, for all register contents, if and only if it names no register that a `cid` in flight clears |
| PipelineRefinement.DecisionDrained | base-core/design/core/cu/cu.v:46-53 | when stage 1 is not held, it decides on the flags the drained machine has |
| PipelineRefinement.AluSettles | base-core/design/core/alu.v:30-60 | recomputing the flags from stale latches on every clock never changes them |
| PipelineRefinement.InvKept | base-core/design/core/cu/cu.v:76-90 | the pipeline invariant holds on every clock, whatever the memory and interrupt pins do |
| PipelineRefinement.ClockRefines | base-core/design/core/cu/pipeline.v:18-41 | draining after a clock is draining before it plus the instruction the clock issued, if any |
| PipelineTheorems.PipelineIsSequential | base-core/design/core/cu/cu.v:60-90 | at every cycle from reset, stage 1 holds the instruction at pc and draining gives exactly the registers, flags and pc of the sequential machine after the instructions issued |
| PipelineTheorems.CidFreeIsClear | base-core/design/core/cu/id_stage_2.v:16 | a program without `cid` never meets the `cid` hazard |
| PipelineTheorems.CidSpacedIsClear | base-core/design/core/cu/id_stage_2.v:16 | a program whose sequential run never reads registers 0 to 3 in the two instructions behind an executed `cid` never meets the hazard |
| PipelineTheorems.CidSpacedIsSequential | base-core/design/core/cu/cu.v:60-90 | for such programs the hardware is the sequential machine at every cycle from reset |
| PipelineTheorems.CidHazardExactly | base-core/design/core/register_bank.v:69-74 | a core that does not hold stage 1 reads what the drained core holds, for every register contents, if and only if stage 1 names none of registers 0 to 3 while a `cid` is in flight |
| PipelineTheorems.CidIsReadTooEarly | base-core/design/core/cu/id_stage_3.v:19 | the hazard is real: a three-instruction program after which hardware and instruction set disagree |
| PipelineTheorems.HeldAtMostTwice | base-core/design/core/cu/cu.v:42-53 | stage 1 is never held for three clocks in a row |
| PipelineTheorems.ThreeClocksPerInstruction | base-core/design/core/cu/pipeline.v:19-25 | 3n clocks from reset issue at least n instructions |
| PipelineTheorems.JumpsCostNothing | base-core/design/core/cu/id_stage_1.v:62-64 | the clock after a taken jump holds the target in stage 1, and it waits at most one clock for an instruction ahead of the jump |
| PipelineRtl.RegisterBank.ReadBus | base-core/design/core/register_bank.v:25-39 | the generated gates and the OR give the read bus |
| PipelineRtl.RegisterBank.PosEdge | base-core/design/core/register_bank.v:41-75 | the bank after a clock: masked write, and the clear of registers 0 to 3 |
| PipelineRtl.AluUnit.PosEdge | base-core/design/core/alu.v:30-61 | results and flags of the old latches, in numbers or bits, and new latches on execute |
| PipelineRtl.Merged | base-core/design/core/cu/cu.v:67-69 | each bit of the control register comes from the written value exactly if the mask has it |
| PipelineRtl.CoreRtl.PosEdge | base-core/design/core/cu/cu.v:76-90 | the clocked objects together make one step of the pipeline model |
| MemorySystem.InvKept | base-core/design/core/mmu.v:45-107 | whatever is requested and whenever, an operation is under way exactly while one strobe is on |
| MemorySystem.ReadyMeans | base-core/design/data_memory/basic_synchronized_ram.v:35-39 | the RAM is ready on a clock exactly if the clock before left its four inputs as they were |
| MemorySystem.ReturnRegisterAnswers | base-core/design/core/mmu.v:66-94 | addresses 0 and 1 are answered on the clock of the request |
| MemorySystem.RequestActs | base-core/design/core/peripheal_control.v:19-46 | RAM and GPIO act on the clock after the request and are ready on the next, unless the request writes the input port |
| MemorySystem.TransactionRefines | base-core/design/core/mmu.v:37-111 | from any quiescent state a transaction ends quiescent in two or four clocks; a write changes exactly its cell and a read delivers its cell and changes none |
| MemorySystem.AnsweredExactly | base-core/design/core/peripheal_control.v:36-45 | a request is answered if and only if it is not a write to address 2 |
| MemorySystem.InputPortWriteHangs | base-core/design/core/peripheal_control.v:36-45 | after a write to address 2 no later clock ever completes an operation |
| MemorySystem.HistoriesRefine | base-core/design/data_memory/basic_synchronized_ram.v:24-39 | any history of transactions reads from the hardware what it reads from a byte array, and leaves the same bytes |
| MemorySystem.RequestBehindAnswer | base-core/design/core/mmu.v:41-60 | a request on the clock right after an answer is accepted and answered a clock early: writes reach their cell, reads deliver the byte that stands in the output register, and a write to address 2 does nothing |
| MemorySystem.AnsweredRightlyExactly | base-core/design/core/mmu.v:41-111 | such a request is answered rightly if and only if it writes, or reads a cell whose byte already stands in the output register |
| MemoryRtl.DataMemory.PosEdge | base-core/design/data_memory/basic_synchronized_ram.v:24-33 | the cells, the output register and the remembered control signals after a clock |
| MemoryRtl.GpioPort.PosEdge | base-core/design/core/peripheal_control.v:19-46 | ready flag, read bus and port registers after a clock |
| MemoryRtl.MemoryUnit.PosEdge | base-core/design/core/mmu.v:45-107 | strobes, answer and return registers after a clock |
| MemoryRtl.MemoryRtl.PosEdge | base-core/design/core/core.v:88-125 | the three blocks on one clock make one step of the memory model |
| CoreMemory.RequestAccepted | base-core/design/core/mmu.v:62-94 | a request to quiescent memory is accepted; from then on the pending bytes are the bytes after the request, and a pending load is the byte it asked for |
| CoreMemory.RequestRushed | base-core/design/core/mmu.v:41-94 | a request right behind an answer is accepted; its write is pending, and its read will deliver the byte that stands |
| CoreMemory.AskedBecomesAnswered | base-core/design/core/mmu.v:41-60 | RAM and GPIO act without changing anything that was pending |
| CoreMemoryRefinement.InvAllKept | base-core/design/core/core.v:88-153 | stages, latches, strobes and answers stay linked on every clock, however the program uses memory: memory is busy exactly for the instruction in stage 2, and only a comparison behind a waiting instruction is latched early |
| CoreMemoryClock.MemoryEntersExactly | base-core/design/core/cu/id_stage_1.v:49-79 | issuing a load or store on whatever clock gives core and memory the sequential effect if and only if its request is harmless: a store unseen behind a busy memory had nothing to change, a load gets the right byte or writes nothing, and no load ahead is overtaken |
| CoreMemoryClock.ClockAllRefinesExactly | base-core/design/core/cu/pipeline.v:18-41 | draining core and memory after a clock is draining before it plus the instruction the clock issued, if and only if the clock makes no harmful request |
| CoreMemoryTheorems.CoreIsSequential | base-core/design/core/core.v:88-153 | at every cycle of a calm run from power-up, draining core and memory gives exactly the registers, bytes, flags and pc of the sequential machine after the instructions issued, loads and stores included |
| CoreMemoryTheorems.CoreFollowsExactly | base-core/design/core/core.v:88-153 | a run that has been calm so far agrees with the sequential machine after its next clock if and only if the request made on it is harmless |
| CoreMemoryTheorems.WaitsOnce | base-core/design/core/cu/id_stage_2.v:11-15 | a memory instruction keeps stage 2 waiting for one clock at most |
| CoreMemoryTheorems.FourClocksPerInstruction | base-core/design/core/cu/pipeline.v:19-25 | 4n clocks from power-up issue at least n instructions, however close together the program uses memory |
| CoreMemoryTheorems.OverlappingStoreIsLost | base-core/design/core/mmu.v:43 | a store requested while an operation is under way is issued but not carried out; the bytes are right if and only if it had nothing to change |
| CoreMemorySpacing.SpacedProgramsAreSequential | base-core/design/core/core.v:88-153 | if the sequential run keeps three instructions between two that use memory (two before a store), none at the input port and no `cid` right before a read of what it clears, the hardware is the sequential machine on every clock and issues an instruction every four clocks |
| CoreMemoryOverlaps.BackToBackStores | base-core/design/core/cu/pipeline.v:19-25 | two stores in a row are both issued within three clocks; the bytes are right if and only if the second had nothing to change |
| CoreMemoryOverlaps.SecondStoreIsLost | base-core/design/core/mmu.v:43 | the loss is real: a three-instruction program, run from power-up, after which one cell differs between hardware and instruction set |
| Encoding.ReadProgram | src/reader/reader.cpp:3-46 | the decoding loop, with its two refusals |
| Encoding.HeadRoundTrip | src/reader/reader.cpp:17-18 | operation and condition nibbles are recovered from the byte the writer makes of them |
| Encoding.HeadMeans | src/writer.cpp:8-12 | the first byte is the operation code and the condition, one hexadecimal digit each |
| Encoding.ReadBack | src/reader/reader.cpp:11-42 | decoding an encoded program gives it back, up to what a `nop` does not keep |
| Linker.MicroWriter.PutOp | src/writer.cpp:8-12 | appends the three bytes of the instruction under the condition on top of the stack |
| Linker.MicroWriter.PutJump | src/writer.cpp:71-74 | appends an unlinked jump and its link |
| Linker.MicroWriter.PushCondition | src/writer.cpp:183-185 | one more condition, nothing else |
| Linker.MicroWriter.PopCondition | src/writer.cpp:188-192 | one condition less, or none if the stack was empty |
| Linker.MicroWriter.PutLabel | src/writer.cpp:195-197 | the label stands for the number of instructions so far |
| Linker.MicroWriter.Bake | src/writer.cpp:200-216 | linking succeeds exactly if every label used is defined, never runs out of bounds, and yields the linked program |
| Linker.PatchLinks | src/writer.cpp:203-213 | patching the links one by one encodes the linked program |
| Linker.OnlyJumpOperandsChange | src/writer.cpp:211-212 | linking changes no byte but the operands of jumps |
| Linker.TargetExactly | src/writer.cpp:205 | a label is reached through its word address if and only if its byte offset fits sixteen bits |
| Linker.TargetWraps | src/writer.cpp:195-216 | label offsets are cut to sixteen bits before they become word addresses |
| Linker.JumpsReachTheirLabels | src/writer.cpp:200-216 | an image of at most 65535 bytes decodes to the emitted instructions, each jump leading to its label |
| Parsing.Parser.Match | src/source/parser.hpp:157-169 | consumes the next token exactly if it passes the test |
| Parsing.Parser.Expect | src/source/parser.hpp:141-151 | the next token if it passes the test, else the message the source raises |
| Parsing.Parser.Block | src/source/parser.hpp:211-232 | the sub-parser gets the block and the cursor stands behind its closing token; an unclosed block loses its last token |
| Parsing.Parser.UntilBreak | src/source/parser.hpp:243-257 | the sub-parser gets the tokens up to the break; without a break the last token is lost |
| Parsing.BlockIsBalanced | src/source/parser.hpp:211-232 | a block ends at index k if and only if token k closes and the tokens before it are a balanced word |
| Parsing.BalancedBlock | src/source/parser.hpp:211-232 | a balanced body is cut out whole, whatever follows |
| Parsing.FirstBreakIsFirst | src/source/parser.hpp:243-257 | a statement ends at the first break |
| Elaboration.IfScopes | src/assembler.cpp:218-238 | the body of an `if` is under its condition and what follows under the old one, for every closed body |
| Elaboration.StatementScopes | src/assembler.cpp:260 | a statement with its break is elaborated on its own |
| Elaboration.MarkIsPosition | src/assembler.cpp:240-257 | a label stands for the number of instructions emitted in front of it |
| Elaboration.ElabHasNoExtension | src/assembler.cpp:47-179 | no source emits the reserved operation |
| Elaboration.AssembledJumps | src/assembler.cpp:266-286 | an accepted source decodes to its instructions in order, and a jump, forward or backward, leads to its label if and only if the label's byte offset fits sixteen bits |
| Elaboration.SmallImagesLink | src/assembler.cpp:266-286 | in an image of at most 65535 bytes every jump leads to its label |
| Words.ConditionNames | src/assembler.hpp:12-27 | every name of a condition and what it promises for all flags |
| Words.OnlyConditionNames | src/assembler.hpp:12-27 | no other text names a condition |
| Words.ImmediateMeans | src/assembler.cpp:35-45 | in each of the four notations an immediate is the number its digits stand for, in either case: its low byte when it fits an int, zero when it does not |
| Words.NotADigit | src/assembler.cpp:35-45 | what is in neither row of digits is no digit |
| Words.ByteNotations | src/assembler.cpp:35-45 | every byte can be written in hexadecimal, octal, binary and decimal, in lower and upper case |
| Words.ValueStops | src/assembler.cpp:35-45 | the value of a text ends at the first character that is no digit of the base |
| Words.RegsetMeans | src/assembler.cpp:22-33 | a set has exactly the registers whose digits it names |
| Words.MnemonicsMean | src/assembler.cpp:50-176 | mnemonics with no operand, one number, a set and a number, or a jump |
| Words.ArithmeticMnemonics | src/assembler.cpp:50-176 | mnemonics of the logical operations and the shift |
| Words.MoreMnemonics | src/assembler.cpp:50-176 | mnemonics of sum, comparison and move |
| Words.MemoryMnemonics | src/assembler.cpp:50-176 | mnemonics of the memory operations |
| Words.OnlyMnemonics | src/assembler.cpp:50-176 | no other text is a mnemonic |
| Assembler.Assembler.GetOrCreateLabel | src/assembler.cpp:7-20 | a new name gets a fresh identifier, a known one keeps its own |
| Assembler.Assembler.ParseRegisterSet | src/assembler.cpp:22-33 | the digits of a register-set token become its mask |
| Assembler.Assembler.ParseImmediate | src/assembler.cpp:35-45 | the value of a number token, by its base |
| Assembler.Assembler.ParseOperation | src/assembler.cpp:47-179 | each mnemonic emits its instruction or records an error; the condition stack is untouched |
| Assembler.Assembler.ParseStatement | src/assembler.cpp:181-209 | a condition prefix is in force for its own statement only |
| Assembler.Assembler.ParseRoot | src/assembler.cpp:211-264 | terminates on every input; the condition stack on exit is that on entry, whatever happened; an error is recorded exactly if the tokens do not elaborate, and otherwise the items of the elaboration are emitted |
| Assembler.Assembler.UndefinedLabel | src/assembler.cpp:274-278 | finds an undeclared label exactly if some jump uses one |
| Assembler.Assembler.Assemble | src/assembler.cpp:266-286 | the result is the image the tokens mean, or nothing if they mean none |
| Scanning.RoundTakesSome | src/source/tokenizer.cpp:232-281 | every round of the tokenizer takes at least one character and no more than there are |
| Scanning.TokensAreOrdered | src/source/tokenizer.cpp:228-289 | token spans are in bounds, ordered and disjoint, and the last is the empty break at the end |
| Lexemes.WordsExactly | src/source/tokenizer.cpp:54-68 | a text that starts with a letter is read as an identifier or a label of n characters if and only if it starts with one: a word, a word with a colon, or a word, a dot and letters and digits |
| Lexemes.NumbersExactly | src/source/tokenizer.cpp:126-185 | the tokenizer reads a number of n characters if and only if the text starts with one: a mark and digits of its base with single separators, or decimal digits in groups, and no letter or digit behind |
| Lexemes.DecimalExactly | src/source/tokenizer.cpp:168-182 | decimal digits with separators end at n, or are refused, exactly as their grouping says |
| Lexemes.SetsExactly | src/source/tokenizer.cpp:187-226 | a register set of n digits is read if and only if they ascend and something other than a letter or digit follows |
| Lexemes.PlainStrings | src/source/tokenizer.cpp:99-124 | a string without escapes ends at its closing quote or with the source, and may not contain a new line |
| Lexemes.EscapesMean | src/source/tokenizer.cpp:70-97 | an escape takes one character, or `x` and up to two hexadecimal digits |
| Lexemes.OtherTokens | src/source/tokenizer.cpp:232-281 | digits, dollars and quotes start tokens of their own kind |
| Lexemes.OtherCharacters | src/source/tokenizer.cpp:232-281 | breaks, commas and white space, and the characters that no token starts with |
| Lexemes.AlphabeticMeans | src/source/lexer.cpp:36-38 | the letters are those of both cases and the underscore |
| Lexemes.HexadecimalMeans | src/source/lexer.cpp:56-58 | the hexadecimal digits, in both cases |
| Lexemes.SmallClassesMean | src/source/lexer.cpp:32-62 | octal and binary digits, white space and escape codes |
| Coverage.GapsAreGaps | src/source/tokenizer.cpp:228-289 | every stretch that the tokenizer skips is one white-space character or exactly one whole comment |
| Coverage.EveryCharacterIsCovered | src/source/tokenizer.cpp:228-289 | every character of an accepted source lies in one of the tokens, or in a stretch the tokenizer skipped that is white space or a comment |
| Coverage.CommentEndsExactly | src/source/tokenizer.cpp:30-52 | a block comment with any characters and any nesting inside ends at a position if and only if its own closing mark ends there; one that is never closed takes the rest of the source |
| Coverage.InlineIsLine | src/source/tokenizer.cpp:9-28 | an inline comment holds no new line and no second slashes but at its end, and ends at those, at a new line or with the source |
| Tokenizer.Lexer.Match | src/source/lexer.cpp:170-179 | consumes a character exactly if it is of the class; never at the end |
| Tokenizer.Lexer.MatchText | src/source/lexer.cpp:81-95 | consumes a text exactly if it is ahead, else nothing |
| Tokenizer.Lexer.GreedyMatch | src/source/lexer.cpp:181-185 | consumes the longest prefix of the class |
| Tokenizer.ScanInlineComment | src/source/tokenizer.cpp:9-28 | ends at the new line, which becomes a break, behind a second pair of slashes, or at the end |
| Tokenizer.ScanMultilineComment | src/source/tokenizer.cpp:30-52 | consumes a block comment with its nesting |
| Tokenizer.ScanIdentifierOrLabel | src/source/tokenizer.cpp:54-68 | identifier, dotted identifier or label |
| Tokenizer.ScanCharEscape | src/source/tokenizer.cpp:70-97 | an escape; an error only at the end of the text |
| Tokenizer.ScanString | src/source/tokenizer.cpp:99-124 | a string, with the character behind an escape taken unseen |
| Tokenizer.ScanDigits | src/source/tokenizer.cpp:126-130 | runs of digits with single separators |
| Tokenizer.ScanInteger | src/source/tokenizer.cpp:142-185 | the number that starts at the token's beginning, in its base |
| Tokenizer.ScanRegisterSet | src/source/tokenizer.cpp:187-226 | ascending register digits; an error otherwise and at the end of the text |
| Tokenizer.Tokenize | src/source/tokenizer.cpp:228-289 | the token spans of the source, or none if it has a lexical error |
| Listing.RegsetString | src/reader/instruction.cpp:19-31 | a register set prints its digits in ascending order |
| Listing.Disassemble | src/reader/state.cpp:113-133 | collecting the jump targets and printing line by line gives the disassembly |
| ListingColumns.ListedIsDisassembly | src/reader/state.cpp:122-131 | removing the address column of the disassembly gives the listing |
| ListingReading.AddressesCount | src/reader/state.cpp:128 | reading the digits in front of the tab of each line of the disassembly as hexadecimal numbers gives 0, 1, 2 and so on, one for each instruction |
| ListingReading.LabelIsRead | src/reader/state.cpp:124-126 | a label is `l_` and the decimal address |
| ListingReading.ControlIsRead | src/reader/instruction.hpp:272-274 | `ctr` prints its mask as a number |
| ListingReading.NibbleIsRead | src/reader/instruction.cpp:7-17 | a condition without a name prints its four bits, highest first |
| ListingReading.SampleListing | src/reader/state.cpp:113-133 | a listing with a label, a condition and all kinds of separators, character by character |
| ListingLexing.InstrLexes | src/reader/instruction.hpp:103-522 | every printed instruction is read as the tokens it was printed from |
| ListingLexing.LabelLexes | src/reader/state.cpp:124-126 | every printed label line is read as a label between breaks |
| ListingRoundTrip.SetIsRead | src/reader/instruction.cpp:19-31 | a printed register set is parsed back to its mask |
| ListingRoundTrip.ImmediateIsRead | src/reader/instruction.hpp:177-179 | a printed byte is parsed back |
| ListingRoundTrip.LabelsDiffer | src/reader/state.cpp:124-126 | different addresses print different labels |
| ListingRoundTrip.StatementIsRead | src/assembler.cpp:181-209 | a printed instruction parses to itself, as far as it was printed; `ctr` does not parse |
| ListingRoundTrip.ListingAssembles | src/reader/state.cpp:113-133 | what assembling a listing gives, for every program the reader accepts |
| ListingRoundTrip.ListingRoundTrips | src/reader/state.cpp:113-133 | the listing assembles back to the identical image if and only if every instruction is printable: a named condition, `nop` and `cid` in the form they print, no `ctr`, no jump past the program |
| SourceText.SourceUnit.constructor | src/source/token.cpp:99-121 | one pass builds a line table that partitions the source at its new lines |
| SourceText.SourceUnit.Find | src/source/token.cpp:63-81 | the search from the front finds the line that contains the offset |
| SourceText.LinesMean | src/source/token.cpp:99-121 | each line but the last ends with a new line and has no other; the last has none |
| SourceText.PositionsInvert | src/source/token.cpp:24-81 | every offset inside the source is found in the one line that contains it, and at(find(p)) == p |
| SourceText.OffsetsInvert | src/source/token.cpp:24-81 | find(at(pos)) == pos for every position inside a line |
| SourceText.BehindTheEnd | src/source/token.cpp:79-85 | offsets behind the source are found one past the last line |
| HexText.DecodeHexString | src/controller.cpp:11-29 | the decoding loop: pairs of digits, anything else skipped |
| HexText.EncodeHex | src/controller.cpp:94-110 | the encoding loop: two upper-case digits per byte, three bytes per line |
| HexText.HexRoundTrips | src/controller.cpp:11-29 | decoding the text of any bytes returns them |
| HexText.HexDigitsMean | src/controller.cpp:11-29 | a digit is worth its place in the row of digits, in either case; upper case is written |
| HexText.OnlyHexDigits | src/controller.cpp:11-29 | no other character is a digit |
| HexText.ByteIsWritten | src/controller.cpp:94-110 | every byte can be written in lower and in upper case |
| HexText.WrittenIsDecoded | src/controller.cpp:11-29 | decoding returns the bytes of any text of them, in upper, lower or mixed case and with anything but digits between them |

## Left out

- NativeCallIsRun: asks for an allowed run (`JitTheorems.RunOk`), instruction by executed instruction: no `nad` that writes a register, a `ctr` whose mask covers the standby bits or whose value sets one, shift counts below 32, accesses that stay in the configured memory and do not hit a shadowed peripheral, jump targets at most rom.size(). Outside these the two implementations differ as the table above says, or the C++ shift, the memory access or the jump table entry is undefined.
- NativeKeepsRunning: for allowed runs, as `NativeCallIsRun`.
- ReturnsExactlyWhenHalting: for programs all of whose runs from the state are allowed, as `NativeCallIsRun`.
- StepSimulates: for allowed steps (`JitCorrect.StepOk`), which are the steps of allowed runs.
- AllowedProgramsAgree: register jumps only where no address runs past the jump table, in programs of 65535 instructions or through an empty high set; other programs with register jumps are in `NativeCallIsRun`.
- BlockShr: counts of 32 and more, where the C++ shift is undefined; `Isa.ShiftRight` gives zero there.
- StraightBodyRuns: without a `nad` that writes a register, which never agrees (`NadAgreesExactly`), and counts of 32 and more.
- ControlBodyRuns: for the values and masks on which the two sides agree whatever CL held, exactly those of `StandbyAgreesExactly`.
- LoadDispatchedRuns: accesses that hit a peripheral shadowed by the segment register, on which the sides differ (`TablesAgreeExactly`), or leave the configured memory, which is undefined in both.
- StoreDispatchedRuns: as `LoadDispatchedRuns`.
- LoadBodyRuns: as `LoadDispatchedRuns`.
- StoreBodyRuns: as `LoadDispatchedRuns`.
- JumpBodyRuns: targets above rom.size() have no entry in the jump table.
- PipelineIsSequential: programs without `ldm`, `stm`, `ctr` and the reserved operation, and then for any memory and interrupt pins. Loads and stores are in `CoreIsSequential`.
- CoreIsSequential: programs without `ctr` and the reserved operation, on runs that are calm clock by clock, which is exact (`CoreFollowsExactly`) but for address 2, where a read depends on the pins and a write is never answered, and for `cid` read too early, whose exact condition is `OperandsPastExactly`.
- ClockAllRefinesExactly: without requests to address 2, and without a `cid` in flight that clears what the instruction reads.
- SpacedProgramsAreSequential: the distance between memory instructions suffices and is not always needed; an instruction that stage 1 holds or computes takes more clocks than one it finishes.
- Clock: program memory is the combinational ROM, which is always ready.
- ClockRefines: without a `cid` in flight that clears what the executing instruction reads, the exact condition of `OperandsPastExactly`; interrupts cannot arise because no `ctr` sets the enable bit; the stopped state is modelled and not reached.
- HistoriesRefine: without the interrupt that overwrites addresses 0 and 1.
- StepsSimulate: micro programs of fewer than 65536 instructions, and a data section of at least one segment, as the jump tables need them.
- Compile: x86 byte encodings are an arbitrary size per instruction, with a one-byte no-operation and jumps of at most eight bytes.
- ReadBack: a `nop` comes back with condition T and zero arguments, because that is what the reader stores.
- ListingRoundTrips: images up to 65535 bytes, the bound beyond which label offsets are cut off.
- ScanInteger: characters outside ASCII are single characters that no class contains; byte order marks and encodings are not modelled.
- The flag image moves between flag register and SI by sixteen-bit pushes and pops; operand widths are taken as paired and stack alignment is not modelled.
- Native memory is always copied in and out; the switch that turns this off is not modelled.
- Host functions are the four the compiler calls; a host call keeps callee-saved registers and leaves the others arbitrary, as the System V convention says, and executable memory and the code generation library are not part of this model.
- Peripherals answer from a function of the history of accesses; their callbacks are not part of this model.
- Error messages are recorded as happened or not; their text, colours and positions are left out.
- Command-line arguments, the interactive controller, file access, FPGA board files, simulators and build scripts.
