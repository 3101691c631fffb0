# Verified model of the bugnes 6502 core and PPU port

This project models the processor emulator in `cpu/6502/src` and the picture-processor port in
`bin/simplenes`, and proves what they promise over whole runs.

There is no hardware standard behind the model: the code is the specification. The project has three
layers.

- **Heap layer.** Classes with the fields the C code keeps in static storage: `CpuCore` (core.c), `Cpu`
  (opcodes.c, addr.c, sfot.c), `HookList` and `HookTable` (memhooks.c), `PpuPort` and `PpuRegs` (ppu.c,
  ppu_registers.c), and the printer of disas.c on a character buffer. Methods follow the C functions
  statement by statement: flags are set one at a time with masks on the packed status byte, list nodes are
  linked through pointers, loops are loops. Each method is proved against the value layer.
- **Value layer.** `Machine` gives each instruction as one equation on a record of registers, flags and
  memory; `HookLists` gives list contents as sequences; `Ppu.Port` is a 14-bit counter.
- **Theorems** about the value layer: what each instruction, mode and branch means in plain numbers and bits of
  the status byte (`InstructionFacts`), what hooks do to accesses (`HookedAccess`), programs executed by the
  machine (`CopyLoops`, `MultiByte`, `CallReturn`), simulation by a plain instruction set, run invariants, hook
  lists, power cycles, round trips.

Modelling decisions:

- Hook functions are pure functions of the address (and of the byte written). The processor sees them as a
  `Bus`; the theorems about runs hold for every such bus unless they say otherwise.
- `assert` is active in this program (the build does not define NDEBUG). A fetch whose assertion fails is the
  outcome `Aborted`. Assertions on arguments are preconditions.
- The run loop is left after a given number of steps, which stands for the step callback's decision to stop.
- Bytes and words are integers with the truncation of each C conversion written out. Bit operations on bytes
  are bit-vector operations; masks with 0xFF00, 0x00FF, 0x3F and 0x3FFF, and shifts by one bit or by eight,
  are written as the divisions and remainders that they are.

Where code and documentation disagree, the model follows the code, and a lemma shows the difference:

- `insert` in memhooks.c accepts overlaps, rejects disjoint ranges and drops a whole list, against the comment
  at lines 27-30. `HookLists.InsertIsDocumentedIff` gives the exact condition under which it does what is
  documented, `HookLists.InsertDeparts` the concrete inputs, and `HookLists.RepairedIsDocumented` two repairs
  that make it do so always. The repaired code, which the repository does not have, is
  `MemHooks.HookList.InsertRepaired`.
- The address 0xFFFF means both an address and "none". `ReferenceMachine.RunSimulates` gives the exact
  condition for control flow, `ReferenceMachine.RunSimulatesSeparate` for control flow and operands.
- `mirror_internal_ram` translates nothing (`Mirrors.InternalRamIsNotMirrored`).
- The overflow flag is never set by arithmetic or BIT (`RunInvariants.FlagsFromPowerOn`), although the comment at
  opcodes.c:97 only suspects it.
- Power-off does not clear the program counter and the pending branch. `Sfot.PowerCycle` shows that this can be
  seen if and only if the reset vector reads as 0xFFFF.

`dafny verify dfyconfig.toml` checks the whole project.

## Model

| member | source | states |
|---|---|---|
| `ReferenceMachine.RunSimulates` | cpu/6502/src/opcodes.c:393-421 | For every run: the machine with deferred branches and the reference machine, which knows the next PC at execution, have the same outcome after every number of steps if and only if no step branches to 0xFFFF and none changes the length its own opcode byte tells |
| `ReferenceMachine.RunSimulatesSeparate` | cpu/6502/src/opcodes.c:393-421 | Against a reference machine that also has an accumulator mode of its own: the same, if and only if in addition every operand at 0xFFFF makes no difference |
| `ReferenceMachine.OwnCodeSimulates` | cpu/6502/src/opcodes.c:393-421 | A run in which no instruction branches to 0xFFFF or writes the cell it was fetched from has the outcomes of the reference machine |
| `ReferenceMachine.OwnCellKept` | cpu/6502/src/opcodes.c:37-56 | An instruction that does not write its own opcode cell, as its operand and SP before the step tell, keeps its length |
| `ReferenceMachine.LockstepIsOutcomes` | cpu/6502/src/opcodes.c:398-421 | Lockstep is the same as equal outcomes after every number of steps: same next PC, registers and memory, or both stopped by the fetch assertion |
| `ReferenceMachine.LockstepIff` | cpu/6502/src/opcodes.c:393-421 | Lockstep over a run is the same as the exact conditions at each of its steps |
| `ReferenceMachine.StepSimulates` | cpu/6502/src/opcodes.c:23-56 | One step, against either reference machine: both abort together, and otherwise agree exactly when the conditions hold |
| `ReferenceMachine.ExecSimulates` | cpu/6502/src/opcodes.c:398-401 | The next fetch, which reads the length after execution, finds the reference successor exactly when the conditions hold of the instruction |
| `ReferenceMachine.NextAgrees` | cpu/6502/src/opcodes.c:398-405 | The next PC is that of the reference machine exactly when the branch is not to 0xFFFF and the length is unchanged |
| `ReferenceMachine.EffectsAgree` | cpu/6502/src/addr.c:40-48 | The code's use of an invalid address for "accumulator" has the effect of a separate accumulator mode exactly when the operand is not at 0xFFFF or makes no difference there |
| `ReferenceMachine.CalculationsAgree` | cpu/6502/src/opcodes.c:207-265 | For which operands each calculation gives the same as with 0: all for BIT, no common bit for AND, no new bit for ORA, same order and sign for a comparison, only 0 otherwise |
| `ReferenceMachine.ShiftsAgree` | cpu/6502/src/opcodes.c:272-295 | When shifting the accumulator is the same as shifting the cell at 0xFFFF, under any hooks |
| `ReferenceMachine.ShiftsAgreePlain` | cpu/6502/src/opcodes.c:272-295 | Without a hook there: exactly when accumulator and cell both hold 0 with a 0 shifted in, or both 0xFF with a 1 |
| `ReferenceMachine.OperandsAgree` | cpu/6502/src/addr.c:45-48 | The operand is the one meant if and only if its address is not 0xFFFF or that cell reads as 0 |
| `ReferenceMachine.JumpToSentinelFallsThrough` | cpu/6502/src/opcodes.c:183-186 | JMP $FFFF at 0x200 continues at 0x203 |
| `ReferenceMachine.SelfModificationChangesLength` | cpu/6502/src/opcodes.c:37-56 | INC of its own opcode byte at 0x200 continues at 0x201 |
| `ReferenceMachine.OperandAtSentinelIsZero` | cpu/6502/src/addr.c:45-48 | ADC $FFFF adds 0 although the cell holds 1 |
| `ReferenceMachine.ShiftAtSentinelShiftsAccumulator` | cpu/6502/src/opcodes.c:272-295 | ASL $FFFF shifts the accumulator and leaves the cell |
| `CallReturn.CallReturns` | cpu/6502/src/opcodes.c:359-361 | JSR at pc, any run of nested calls, pushes and pulls that shelters the frame, and RTS at the level of the call: the next PC is pc+3 and SP is as before the JSR |
| `CallReturn.RunKeepsFrame` | cpu/6502/src/core.c:79-104 | Over any sheltered run (no TXS, no store to the two cells, depth 0 to 254) the return address stays and SP is the entry level less the balance |
| `CallReturn.StepKeepsFrame` | cpu/6502/src/core.c:79-104 | The same for one step |
| `CallReturn.CallExample` | cpu/6502/src/opcodes.c:359-361 | The conditions can be met: a program that calls a subroutine which pushes and pulls |
| `CallReturn.PushAtLimitHitsFrame` | cpu/6502/src/core.c:92-95 | The depth limit is sharp: a push at depth 254 lands on the return address |
| `Footprints.EffectTouches` | cpu/6502/src/opcodes.c:140-296 | Every instruction leaves every cell alone but its store target and the cells it pushes to |
| `CallReturn.CallMakesFrame` | cpu/6502/src/opcodes.c:170-173 | JSR leaves pc+2 in the two cells below the old SP |
| `CallReturn.ReturnTakesFrame` | cpu/6502/src/opcodes.c:178-181 | RTS takes the frame's address plus one and restores SP |
| `MultiByte.ChainedAdc` | cpu/6502/src/opcodes.c:237-246 | A program of n LDA/ADC/STA rounds, each instruction zero-page or absolute, executed by the machine, leaves the n-byte sum and a carry that is set exactly when the sum needs another byte |
| `MultiByte.ChainedSbc` | cpu/6502/src/opcodes.c:249-265 | With SBC it leaves the n-byte difference, and the final carry is set exactly when the minuend is at least the subtrahend plus the initial borrow |
| `MultiByte.ChainComputes` | test/cpu/6502/check.c:122-164 | For both, in any mixture of zero-page and absolute instructions: the program runs to its end, writes only the result, and result, carry and operands satisfy one equation |
| `MultiByte.TwoByteSbc` | test/cpu/6502/check.c:137-143 | The zero-page rounds of the test leave 0x201 for 0x300 - 0xFF, wherever between the zero page and the reserved area they stand |
| `MultiByte.ChainRound` | cpu/6502/src/opcodes.c:106-118 | One round of three steps computes one digit and the carry for the next |
| `MultiByte.ChainedRol` | cpu/6502/src/opcodes.c:272-295 | n ROLs in memory, zero-page or absolute, lowest byte first, double an n-byte number with the carry in at the bottom and out at the top, and write nothing else |
| `MultiByte.ChainedRor` | cpu/6502/src/opcodes.c:272-295 | n RORs, zero-page or absolute, top byte first, halve it with the carry in at the top and the lowest bit out, and write nothing else |
| `MultiByte.AslThenRol` | cpu/6502/src/opcodes.c:352-354 | With ASL first the number is doubled whatever the carry was |
| `MultiByte.LsrThenRor` | cpu/6502/src/opcodes.c:353-355 | With LSR first it is halved and the carry is the remainder |
| `MultiByte.RolRorInverse` | cpu/6502/src/opcodes.c:354-355 | ROL and ROR of the accumulator undo each other on carry and accumulator |
| `MultiByte.NineRolsIdentity` | cpu/6502/src/opcodes.c:354 | Nine ROLs are the identity on the nine bits |
| `CopyLoops.CopyLoop` | cpu/6502/src/opcodes.c:306-371 | LDX #0; LDA from; STA to; INX; CPX #n; BNE, or the same with Y, executed by the machine in any indexed modes (zero page, absolute, or through a pointer): copies n bytes, 256 for n = 0, changes no other cell, neither SP nor the other index register, and goes on behind its last instruction |
| `CopyLoops.LoopRound` | cpu/6502/src/opcodes.c:306-371 | One round of five steps copies one byte, steps the index, and goes back exactly when the index is not n |
| `CopyLoops.CompareAndBranch` | test/cpu/6502/check.c:145-149 | A comparison in any mode and a branch behind it: the machine goes on at the branch's target exactly when register and operand are equal, unequal, at least, less, or differ with or without the sign bit, as the branch asks |
| `CopyLoops.BranchStep` | cpu/6502/src/addr.c:20 | A branch goes to its own address plus 2 plus the signed operand, or behind itself |
| `CopyLoops.BlockAddress` | cpu/6502/src/addr.c:18-26 | Each indexed mode of the loop addresses start plus index |
| `CopyLoops.CopyExample` | cpu/6502/include/opcodes-private.h:105-170 | Concrete bytes that meet the conditions: three bytes go from a pointer's target to 0x400 |
| `InstructionFacts.BranchAfterCompare` | cpu/6502/src/opcodes.c:249-265 | After CMP, CPX or CPY each conditional branch on C, Z or N is taken exactly when the two bytes stand as it asks |
| `InstructionFacts.BranchOnCarryOrZero` | cpu/6502/src/opcodes.c:364-368 | BCS, BCC, BEQ and BNE test bits 0x01 and 0x02 of the status byte |
| `InstructionFacts.BranchOnOverflowOrSign` | cpu/6502/src/opcodes.c:367-371 | BVS, BVC, BMI and BPL test bits 0x40 and 0x80 |
| `InstructionFacts.LoadEffects` | cpu/6502/src/opcodes.c:306-308 | LDA, LDX and LDY fill their own register with the byte read; bit 0x02 says zero, bit 0x80 its top bit; nothing else changes |
| `InstructionFacts.StoreEffects` | cpu/6502/src/opcodes.c:309-311 | STA, STX and STY write their own register and change no register |
| `InstructionFacts.TransfersToIndex` | cpu/6502/src/opcodes.c:314-320 | Source and destination of TAX, TAY and TSX, with the flags |
| `InstructionFacts.TransfersFromIndex` | cpu/6502/src/opcodes.c:316-321 | Source and destination of TXA, TYA and TXS; TXS leaves the status alone |
| `InstructionFacts.StepsOfX` | cpu/6502/src/opcodes.c:345-348 | INX and DEX step X by one modulo 256, with the flags |
| `InstructionFacts.StepsOfY` | cpu/6502/src/opcodes.c:346-349 | INY and DEY step Y by one modulo 256, with the flags |
| `InstructionFacts.StepsUndo` | cpu/6502/src/opcodes.c:345-349 | INX and DEX undo each other, and INY and DEY |
| `InstructionFacts.IncrementEffects` | cpu/6502/src/opcodes.c:190-195 | INC and DEC step the translated cell modulo 256 through the write hook; the flags show what a read returns then |
| `InstructionFacts.StackEffects` | cpu/6502/src/opcodes.c:322-325 | PHA and PHP write accumulator and status byte at 0x100 + SP; PLA and PLP read one above |
| `InstructionFacts.PushPull` | cpu/6502/src/opcodes.c:322-325 | PLA after PHA returns the accumulator, PLP after PHP the flags, and SP is back |
| `InstructionFacts.LogicEffects` | cpu/6502/src/opcodes.c:207-233 | AND, EOR and ORA bit by bit; N and Z show the result of AND and the old accumulator for the others |
| `InstructionFacts.ArithmeticEffects` | cpu/6502/src/opcodes.c:237-265 | ADC and SBC: the truncated result, bits 0x01, 0x02 and 0x80 of the status byte, and bit 0x40 clear |
| `InstructionFacts.CompareEffects` | cpu/6502/src/opcodes.c:249-265 | A comparison changes only flags: "at least" in bit 0x01, the truncated difference in bits 0x02 and 0x80 |
| `InstructionFacts.BitEffects` | cpu/6502/src/opcodes.c:207-215 | BIT sets Z, clears N and leaves V, whatever it tests |
| `InstructionFacts.ShiftSigns` | cpu/6502/src/opcodes.c:272-295 | After a shift N and Z show what a read of the cell returns, or the accumulator; X, Y and SP stay |
| `InstructionFacts.FlagEffects` | cpu/6502/src/opcodes.c:374-380 | Each flag instruction changes its own bit of the status byte and no other |
| `InstructionFacts.OperandAddresses` | cpu/6502/src/addr.c:11-21 | Immediate, zero-page, absolute and relative addresses in terms of the operand bytes |
| `InstructionFacts.IndexedAddresses` | cpu/6502/src/addr.c:18-23 | X or Y is added to the address of the plain mode; an indexed zero-page address may leave the zero page |
| `InstructionFacts.IndirectAddresses` | cpu/6502/src/addr.c:24-26 | X is added before the pointer is read, Y after it; the pointer's second cell is the next address, across pages too |
| `InstructionFacts.AddressDepends` | cpu/6502/src/addr.c:9-29 | An address depends on PC, memory and the mode's own index register only |
| `InstructionFacts.LengthIsExact` | cpu/6502/src/opcodes.c:37-56 | The length counts exactly the bytes on which the operand depends |
| `InstructionFacts.BreakEffects` | cpu/6502/src/opcodes.c:299-303 | BRK goes on at the word in 0xFFFE and 0xFFFF and changes nothing |
| `InstructionFacts.IdleEffects` | cpu/6502/src/opcodes.c:384-385 | NOP, RTI and the undocumented opcodes do nothing |
| `InstructionFacts.FetchAborts` | cpu/6502/src/opcodes.c:398-415 | The fetch fails its assertion exactly at the last six addresses |
| `RunInvariants.StackPointerConserved` | cpu/6502/src/opcodes.c:158-181 | Over every run without TXS, SP moves by PHA + PHP + 2 JSR less PLA + PLP + 2 RTS, mod 256 |
| `RunInvariants.FlagsOverRun` | cpu/6502/src/opcodes.c:68-104 | Over every run without PLP, D and I are what the last SED/CLD and SEI/CLI made them, B and bit 5 stay, V is not newly set, N and Z are not newly set together |
| `RunInvariants.FlagsFromPowerOn` | cpu/6502/src/core.c:123-124 | From power-on no such run ever sets V, B, bit 5, or N and Z together |
| `RunInvariants.EffectMovesSp` | cpu/6502/src/core.c:79-104 | One instruction other than TXS moves SP by its pushes |
| `RunInvariants.EffectStepsFlags` | cpu/6502/src/opcodes.c:374-380 | One instruction other than PLP changes D and I only if it is theirs to change |
| `CircularStack.StackRefinesList` | cpu/6502/src/core.c:79-95 | Over every sequence of pushes and pulls with at most 256 bytes outstanding, from any SP, the pulled bytes are those of an unbounded stack and only page 1 changes |
| `CircularStack.PushBeyondTurnOverwrites` | cpu/6502/src/core.c:92-95 | The bound is sharp: byte 257 overwrites the oldest |
| `HookLists.InsertIsDocumentedIff` | cpu/6502/src/memhooks.c:27-31 | On a sorted, disjoint list, acceptance and result are as documented if and only if the new range starts inside a mapping, starts after all of them, or ends where the next one (not the head) starts |
| `HookLists.DocumentedInsertKeeps` | cpu/6502/src/memhooks.c:27-31 | The documented insertion keeps the list sorted and disjoint and adds exactly the mapping unless it overlaps |
| `HookLists.DocumentedHistory` | cpu/6502/src/memhooks.c:27-31 | Over every history of insertions and clears the documented insertion keeps the list sorted and disjoint |
| `HookLists.ReplayIsDocumented` | cpu/6502/src/memhooks.c:27-31 | The code builds those lists over every history whose insertions meet the condition |
| `HookLists.RepairedIsDocumented` | cpu/6502/src/memhooks.c:67-86 | With the comparison turned round and the old head linked behind a new one, the code rejects exactly the overlaps and inserts as documented |
| `HookLists.ReplayRepairedIsDocumented` | cpu/6502/src/memhooks.c:27-31 | So repaired, it builds the documented lists over every history |
| `HookLists.InsertDeparts` | cpu/6502/src/memhooks.c:64-86 | Concrete insertions that accept an overlap, reject a disjoint range, and drop the list |
| `HookLists.ReplayAgrees` | cpu/6502/src/memhooks.c:33-105 | After every history of insertions and clears the list has nonempty ranges with strictly ascending starts, and lookup agrees with a plain table from addresses to hooks |
| `HookLists.InsertOverrides` | cpu/6502/src/memhooks.c:83-105 | An accepted insertion that keeps the old list overrides the lookup exactly on its range |
| `HookLists.InsertOverridesIff` | cpu/6502/src/memhooks.c:83-86 | An accepted insertion is such an override if and only if it drops nothing that was mapped elsewhere |
| `HookLists.InsertKeepsAscending` | cpu/6502/src/memhooks.c:60-88 | Starts stay strictly ascending whatever is inserted |
| `HookLists.WalkStops` | cpu/6502/src/memhooks.c:64-81 | The walk passes mappings that end before the new start and stops at the first it cannot pass; where that one lies decides |
| `MemHooks.HookList.Insert` | cpu/6502/src/memhooks.c:33-89 | The linked list stays acyclic and ends with the contents the insertion describes; the code tells acceptance |
| `MemHooks.HookList.FindPlace` | cpu/6502/src/memhooks.c:43-81 | The trailing pointer and the current one lie around the position of the stop, and the answer is acceptance |
| `MemHooks.HookList.Link` | cpu/6502/src/memhooks.c:83-86 | The node is linked at the position, or replaces the list at the front |
| `MemHooks.HookList.InsertRepaired` | cpu/6502/src/memhooks.c:33-89 | With the two repairs the linked list stays acyclic, loses no node, and ends with the contents of the repaired insertion |
| `MemHooks.HookList.FindPlaceRepaired` | cpu/6502/src/memhooks.c:64-81 | The walk with its comparison turned round, on the nodes |
| `MemHooks.HookList.LinkRepaired` | cpu/6502/src/memhooks.c:83-86 | The node is linked at the position, and before the old head at the front |
| `MemHooks.HookList.Check` | cpu/6502/src/memhooks.c:91-105 | Returns the hook of the first mapping that covers the address, or none |
| `MemHooks.HookList.Clear` | cpu/6502/src/memhooks.c:133-147 | Empties the list and visits each old node once |
| `MemHooks.HookTable.InsertRead` | cpu/6502/src/memhooks.c:112-117 | Inserts into the read list; the others stay |
| `MemHooks.HookTable.InsertWrite` | cpu/6502/src/memhooks.c:119-124 | Inserts into the write list; the others stay |
| `MemHooks.HookTable.InsertTransl` | cpu/6502/src/memhooks.c:126-131 | Inserts into the translation list; the others stay |
| `MemHooks.HookTable.Clear` | cpu/6502/src/memhooks.c:133-147 | Empties all three lists |
| `HookedAccess.ReadHooked` | cpu/6502/src/core.c:29-38 | After inserting a read hook a read at its addresses returns what the hook returns, whatever is in the cell; elsewhere it is as before, unless the insertion was rejected or dropped the list |
| `HookedAccess.WriteHooked` | cpu/6502/src/core.c:46-56 | The same for a write hook and what a write leaves |
| `HookedAccess.TranslHooked` | cpu/6502/src/core.c:29-56 | The same for a translation hook and the address |
| `HookedAccess.HooksAreSeparate` | cpu/6502/src/memhooks.c:112-131 | A hook of one kind does not change what the other kinds do |
| `HookedAccess.ReadAccess` | cpu/6502/src/core.c:29-38 | What the processor reads after an accepted read hook: the hook is asked at the translated address |
| `HookedAccess.WriteAccess` | cpu/6502/src/core.c:46-56 | What a write changes after an accepted write hook |
| `HookedAccess.TranslAccess` | cpu/6502/src/core.c:29-56 | After an accepted translation hook reads and writes ask the other hooks at the new address |
| `HookedAccess.HistoryAnswersReads` | cpu/6502/src/memhooks.c:33-105 | After every history of insertions and clears a read is answered by the plain table of that history |
| `HookedAccess.PpuReadsAnswer` | bin/simplenes/main.c:54-57 | With the four read hooks of simplenes each register is answered by its own hook and every other address by its cell |
| `Ppu.PpuPort.Serve` | bin/simplenes/ppu.c:32-114 | Under every interleaving of address writes, reads, writes and control writes the 16-bit, lazily reduced address stays at most 0x40FF and the port behaves as the 14-bit counter |
| `Ppu.PpuPort.MemRead` | bin/simplenes/ppu.c:32-40 | Reads the counter's cell and advances it by 1 or 32, mod 0x4000 |
| `Ppu.PpuPort.MemWrite` | bin/simplenes/ppu.c:42-51 | Writes the counter's cell and advances it |
| `Ppu.PpuPort.MemaddrWrite` | bin/simplenes/ppu.c:82-99 | Sets the high six or the low eight bits of the counter, in turn, and makes the next read a dummy |
| `Ppu.PpuPort.MemdataRead` | bin/simplenes/ppu.c:101-108 | A dummy read returns 0 and moves nothing |
| `Ppu.PpuPort.MemdataWrite` | bin/simplenes/ppu.c:110-114 | Writes and returns 0 |
| `Ppu.PpuPort.Cr1Write` | bin/simplenes/ppu.c:59-63 | Sets the register that chooses the increment |
| `Ppu.WriteReadRoundTrip` | test/bin/simplenes/check.c:74-120 | Set an address, write up to 0x4000 bytes (512 with increment 32), set it again, one dummy read, and the reads return the bytes, wrap-around included |
| `Ppu.PlayWrites` | bin/simplenes/ppu.c:42-51 | A series of writes puts each value in its own cell and changes no other |
| `Ppu.PlayReads` | bin/simplenes/ppu.c:32-40 | A series of reads returns the cells in turn and changes none |
| `Ppu.IncrementBit` | bin/simplenes/ppu.c:32-51 | Bit 0x04 of the first control register chooses the step of 32 |
| `PpuRegisters.FieldsHoldLastWrites` | bin/simplenes/ppu_registers.c:16-35 | For any partition of the byte and any sequence of field writes, each field holds what was last written to it |
| `PpuRegisters.RegisterIsItsFields` | bin/simplenes/ppu_registers.c:16-20 | A register is the composition of its fields, which determine it |
| `PpuRegisters.TablesArePartitions` | bin/simplenes/ppu_registers.h:16-66 | The CR1, CR2 and SR fields partition the byte |
| `PpuRegisters.FieldBits` | bin/simplenes/ppu_registers.h:16-66 | The bits of every field of the three registers |
| `PpuRegisters.FitsIff` | bin/simplenes/ppu_registers.c:33 | The setter's assertion admits exactly the values of the field's size |
| `PpuRegisters.PpuRegs.SetF` | bin/simplenes/ppu_registers.c:28-35 | The field takes the value; disjoint fields and other registers keep theirs |
| `PpuRegisters.PpuRegs.Set` | bin/simplenes/ppu_registers.c:23-26 | Sets one register and no other |
| `Mirrors.MirrorIsOneMemory` | bin/simplenes/hooks.c:7-16 | With the mirror as only hook, every byte read or pulled over any mixed sequence of reads, stores, increments, pushes and pulls, and every byte left behind, is that of one memory in which exactly the aliases share a byte; the stack page has to be at home only if there are pushes or pulls |
| `Mirrors.TranslatesTogetherIffAlias` | bin/simplenes/hooks.c:13-16 | Two addresses share a cell if and only if they are equal, or both in the window and congruent mod the size |
| `Mirrors.StackIsCoherent` | cpu/6502/src/core.c:79-95 | With the stack page at home a push is a store through the mirror, and a pull returns what a read through it returns |
| `Mirrors.StackIsCoherentIff` | cpu/6502/src/core.c:79-95 | The two kinds of access are the same in every state exactly when the page is outside the window, or the window starts at a multiple of the size and the page reaches no further than its home bank |
| `Mirrors.StackAwayIsNotCoherent` | cpu/6502/src/core.c:92-95 | A window in which a pushed byte is not read back through the mirror |
| `Mirrors.InternalRamIsNotMirrored` | bin/simplenes/hooks.c:18-23 | The RAM hook is the identity, and mirrors as intended exactly below the RAM size |
| `Disassembler.LineRoundTrip` | cpu/6502/src/disas.c:9-88 | Reading the 49-character line back gives PC, mnemonic, mode, operand bytes and all five registers |
| `Disassembler.LineInjective` | cpu/6502/src/disas.c:9-88 | Equal lines come from equal step information |
| `Disassembler.LineDeterminesOpcode` | cpu/6502/src/opcodes.c:423-439 | For documented instructions the line determines the opcode byte |
| `Disassembler.OperandTexts` | cpu/6502/src/disas.c:19-76 | How the operand of each mode is written |
| `Disassembler.LineExample` | cpu/6502/src/disas.c:9-88 | The line of LDA #$1F at 0x0200, with the registers in their order |
| `Disassembler.DisassembleOpcode` | cpu/6502/src/disas.c:9-88 | The printer leaves the line of 49 characters and a NUL, and reaches none of its assert(0) cases when the parameter count comes from the mode |
| `Disassembler.PrintOperand` | cpu/6502/src/disas.c:19-76 | Prints the operand of the mode behind the mnemonic and nothing else |
| `Disassembler.CoverNul` | cpu/6502/src/disas.c:78-80 | Replaces the operand's NUL by a space |
| `Disassembler.PrintRegs` | cpu/6502/src/disas.c:81-87 | Prints the five register fields from column 24 |
| `Assembler.AssembleDecode` | cpu/6502/include/opcodes-private.h:105-170 | Assembling what a documented opcode byte decodes to gives the byte back |
| `Assembler.DecodeInjective` | cpu/6502/include/opcodes-private.h:105-170 | Two documented opcode bytes with one mnemonic and mode are the same byte |
| `Opcodes.Length` | cpu/6502/src/opcodes.c:37-56 | Every mode is 1 to 3 bytes long |
| `Sfot.LoadThenDma` | cpu/6502/src/sfot.c:60-101 | Loading a stream and copying it out returns it if and only if translation sends no two addresses with different bytes to one cell; other cells keep their bytes |
| `Sfot.LoadThenDmaPlain` | cpu/6502/src/sfot.c:60-101 | Without hooks it always comes back, wrap-around included |
| `Sfot.LoadedPlain` | cpu/6502/src/sfot.c:92-101 | Without hooks byte i of the stream goes to offset + i modulo 0x10000, and no other cell changes |
| `Sfot.DmaPlain` | cpu/6502/src/sfot.c:60-68 | Without hooks byte i of the copy comes from addr + i modulo 0x10000 |
| `Sfot.PowerCycle` | cpu/6502/src/sfot.c:117-145 | After power-off and any preparations (images, reset vector, hooks), whatever the machine was doing before, every run of one step or more from power-on is that of a machine never on that was prepared in the same way, if and only if the start address is not 0xFFFF |
| `Sfot.PastShowsIff` | cpu/6502/src/opcodes.c:398-405 | For one machine: its runs are those of the new one exactly when the start address is not 0xFFFF, or the old PC falls through to the same address as PC 0 |
| `Sfot.OffIsAlmostFresh` | cpu/6502/src/sfot.c:136-145 | Power-off leaves the state of a machine never on, but for PC and pending branch |
| `Sfot.PreparedAlike` | cpu/6502/src/sfot.c:92-106 | Preparations keep machines equal but for PC and pending branch, and keep the PC |
| `Sfot.ResetIsStart` | cpu/6502/src/sfot.c:103-106 | A reset vector set past the hooks is the start address when no hook acts on its cells |
| `Sfot.StartsAtVector` | cpu/6502/src/sfot.c:117-121 | Without hooks there the start address is the word in 0xFFFC and 0xFFFD, low byte first |
| `Sfot.FirstStep` | cpu/6502/src/opcodes.c:393-415 | The first fetch takes the start address and never looks at the old PC, unless the start address is 0xFFFF |
| `Sfot.LaterSteps` | cpu/6502/src/sfot.c:47-55 | When the first steps agree, all runs do |
| `Cpus.Cpu.constructor` | cpu/6502/src/core.c:8-14 | The machine starts cleared and off |
| `Cpus.Cpu.Addr` | cpu/6502/src/addr.c:9-29 | The effective address of every mode |
| `Cpus.Cpu.AddrModeGetValue` | cpu/6502/src/addr.c:32-48 | The operand, through the sentinel |
| `Cpus.Cpu.FlagsUpdateBasicByValue` | cpu/6502/src/opcodes.c:68-75 | Z and N follow the value |
| `Cpus.Cpu.FlagsUpdateBasicByRegister` | cpu/6502/src/opcodes.c:77-84 | Except for SP and the status register |
| `Cpus.Cpu.FlagsUpdateBasicByMem` | cpu/6502/src/opcodes.c:86-89 | Z and N follow what a read returns |
| `Cpus.Cpu.FlagsUpdateLogicOverflow` | cpu/6502/src/opcodes.c:92-95 | V is set from bit 6, never cleared |
| `Cpus.Cpu.FlagsUpdateArithOverflow` | cpu/6502/src/opcodes.c:98-104 | V is always cleared |
| `Cpus.Cpu.FlagsUpdateArithAdcCarry` | cpu/6502/src/opcodes.c:106-111 | C is the carry of the sum |
| `Cpus.Cpu.FlagsUpdateArithSbcCarry` | cpu/6502/src/opcodes.c:113-118 | C is the absence of a borrow |
| `Cpus.Cpu.FlagsUpdateArithCmpCarry` | cpu/6502/src/opcodes.c:120-124 | C is "at least" |
| `Cpus.Cpu.FlagsUpdateShrotCarry` | cpu/6502/src/opcodes.c:126-134 | C is the bit shifted out |
| `Cpus.Cpu.AsmReg2Reg` | cpu/6502/src/opcodes.c:140-144 | Register transfer |
| `Cpus.Cpu.AsmReg2Mem` | cpu/6502/src/opcodes.c:146-150 | Store; no flags |
| `Cpus.Cpu.AsmMem2Reg` | cpu/6502/src/opcodes.c:152-156 | Load |
| `Cpus.Cpu.AsmReg2Stack` | cpu/6502/src/opcodes.c:158-162 | Push of a register |
| `Cpus.Cpu.AsmStack2Reg` | cpu/6502/src/opcodes.c:164-168 | Pull of a register |
| `Cpus.Cpu.AsmPc2Stack` | cpu/6502/src/opcodes.c:170-173 | Push of pc+2 |
| `Cpus.Cpu.AsmStack2Pc` | cpu/6502/src/opcodes.c:178-181 | Pending branch to the pulled address plus one |
| `Cpus.Cpu.AsmMem2Pc` | cpu/6502/src/opcodes.c:183-186 | Pending branch on a condition |
| `Cpus.Cpu.AsmIncMem` | cpu/6502/src/opcodes.c:190-195 | Increment or decrement in memory |
| `Cpus.Cpu.AsmIncReg` | cpu/6502/src/opcodes.c:197-202 | Increment or decrement of a register |
| `Cpus.Cpu.AsmLogicAnd` | cpu/6502/src/opcodes.c:207-215 | AND, and BIT, which tests 0 |
| `Cpus.Cpu.AsmLogicEor` | cpu/6502/src/opcodes.c:217-224 | EOR, with N and Z of the old accumulator |
| `Cpus.Cpu.AsmLogicOra` | cpu/6502/src/opcodes.c:226-233 | ORA, with N and Z of the old accumulator |
| `Cpus.Cpu.AsmArithAdd` | cpu/6502/src/opcodes.c:237-246 | ADC in one equation |
| `Cpus.Cpu.AsmArithSub` | cpu/6502/src/opcodes.c:249-265 | SBC and the comparisons |
| `Cpus.Cpu.AsmShrot` | cpu/6502/src/opcodes.c:272-295 | The four shifts, in memory or on the accumulator |
| `Cpus.Cpu.AsmBreak` | cpu/6502/src/opcodes.c:299-303 | Pending branch to the break vector |
| `Cpus.Cpu.ExecOpcode` | cpu/6502/src/opcodes.c:306-385 | Every mnemonic in every mode does what the value layer says, and nothing else |
| `Cpus.Cpu.OpcodeLen` | cpu/6502/src/opcodes.c:37-56 | The length by the opcode byte now at PC |
| `Cpus.Cpu.OpcodeFetch` | cpu/6502/src/opcodes.c:398-415 | Consumes the pending branch or advances; false when the assertion fails |
| `Cpus.Cpu.OpcodeExec` | cpu/6502/src/opcodes.c:417-421 | Decodes and executes the instruction at PC |
| `Cpus.Cpu.OpcodeGetParams` | cpu/6502/src/opcodes.c:433-439 | The operand bytes and their number |
| `Cpus.Cpu.CollectStepInfo` | cpu/6502/src/sfot.c:18-35 | The step information and its line, with the machine unchanged |
| `Cpus.Cpu.CpuThread` | cpu/6502/src/sfot.c:47-55 | n turns of the loop are a run of n steps |
| `Cpus.Cpu.LoadStream` | cpu/6502/src/sfot.c:92-101 | Stores the stream through the hooks at wrapping addresses |
| `Cpus.Cpu.DoDma` | cpu/6502/src/sfot.c:60-68 | Copies what reads at wrapping addresses return |
| `Cpus.Cpu.SetReset` | cpu/6502/src/sfot.c:103-106 | Stores the vector past the hooks |
| `Cpus.Cpu.PowerOn` | cpu/6502/src/sfot.c:117-134 | Runs from the reset vector; ignored when on |
| `Cpus.Cpu.PowerOff` | cpu/6502/src/sfot.c:136-145 | Clears registers, memory, memory hooks, exception hook and step callback, not PC and pending branch; ignored when off |
| `Cpus.Cpu.InstallStepCallback` | cpu/6502/src/sfot.c:108-115 | Installs the callback and returns the one before |
| `Cpus.Cpu.ExcepthookInsert` | cpu/6502/src/excepthooks.c:14-17 | Installs the exception hook |
| `Cpus.Cpu.ExcepthookClear` | cpu/6502/src/excepthooks.c:19-26 | Removes it |
| `CpuCores.CpuCore.ClearAll` | cpu/6502/src/core.c:16-24 | All memory and registers are 0 |
| `CpuCores.CpuCore.MemRead` | cpu/6502/src/core.c:29-38 | Translates, then asks the read hook or the cell |
| `CpuCores.CpuCore.MemRead16` | cpu/6502/src/core.c:41-44 | Low byte first, the second address wraps |
| `CpuCores.CpuCore.MemWrite` | cpu/6502/src/core.c:46-56 | Translates, then stores the byte or what the write hook returns |
| `CpuCores.CpuCore.MemWrite16` | cpu/6502/src/core.c:58-62 | Stores two bytes past the hooks |
| `CpuCores.CpuCore.MemInc` | cpu/6502/src/core.c:64-74 | Adds to the cell itself, then stores as a write |
| `CpuCores.CpuCore.StackPop` | cpu/6502/src/core.c:79-82 | Pull from page 1 with a wrapping SP |
| `CpuCores.CpuCore.StackPop16` | cpu/6502/src/core.c:84-90 | Low byte first |
| `CpuCores.CpuCore.StackPush` | cpu/6502/src/core.c:92-95 | Push to page 1 with a wrapping SP |
| `CpuCores.CpuCore.StackPush16` | cpu/6502/src/core.c:97-104 | High byte first |
| `CpuCores.CpuCore.SetSreg` | cpu/6502/src/core.c:116 | Sets one register; the invalid one is ignored |
| `CpuCores.CpuCore.GetSregIsReg` | cpu/6502/src/core.c:112 | Reads a register; the invalid one reads as 0 |
| `CpuCores.CpuCore.SetFlag` | cpu/6502/src/core.c:124 | The mask operation changes one flag of the record |
| `StatusRegister.SetBitUpdates` | cpu/6502/src/core.c:123-124 | Setting or clearing a mask on the packed byte changes that flag and no other |
| `StatusRegister.UnpackPack` | cpu/6502/include/core.h:7-13 | Packing a flag record loses nothing |
| `StatusRegister.PackUnpack` | cpu/6502/include/core.h:7-13 | Unpacking a status byte loses nothing |

## Left out

- MirrorIsOneMemory: lists byte accesses; a 16-bit read, push or pull is two of them.
- Insert: releasing the memory of a rejected node, of dropped nodes and of cleared nodes is not modelled, nor are the names of hooks.
- Hook functions with side effects, and what the exception hook (called by BRK) and the step callback do: foreign code.
- File-descriptor loading in sfot.c and ppu.c: it depends on `read`; the stream loader is modelled.
- Threads, standard input, SDL, timing and random numbers in `bin/simple6502` and in threaded mode.
- `sfot_memhook_dump`: debugging output only.
- Decimal mode, interrupts and cycle counts: the code does not implement them; RTI does nothing, as in the code.
- The PPU hooks that only return a register or a constant, and the sprite memory: nothing to prove beyond their bodies.
- MEM_WRITE16 at 0xFFFF, which is outside the array in C: a precondition excludes it, and no caller does it.
