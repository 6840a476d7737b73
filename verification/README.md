# Verification of the 65816 emulator

A Dafny model of the emulator's hard parts, with proofs: the 65816 processor core, the resizing hash table
behind its symbol tables, the disassembler's instruction lengths, the text form a processor is saved in, and
the 16C750 serial port. `dafny verify dfyconfig.toml` checks everything.

Code that works in place is modelled in place. The processor is a class with its registers as fields, and
memory an array of cells with values and access flags (`Cpu`, `CpuData`, `CpuFlow`, `CpuStep`); the hash table
relinks nodes of real lists (`Chains`, `HashIterator`, `HashTable`); the serial port updates its rings,
registers and shadow cells (`Ring`, `Uart`). Every such method is proved against functions on values, and the
results are proved about those.

| files | content |
|---|---|
| `Words`, `Bits`, `Machine`, `Opcodes` | integers and addresses, bitwise operations, the machine state with stack and effective addresses, the opcode table |
| `Addresses`, `Targets`, `Vectors` | where operands are, where jumps, calls, interrupts, BRK, COP and resets go |
| `Arith`, `CarryChain`, `Inverses` | what ADC and SBC compute, numbers of any length, operations and what undoes them |
| `Effects`, `DataEffects`, `StackEffects` | what the single operations do to registers, flags, memory and stack |
| `Instructions`, `Executor` | each instruction family on states; steps, interrupts, runs, reset |
| `Quirks` | instructions and flags that do not do what their names say |
| `Invariants` | what every step and every run keeps |
| `Stack`, `Calls`, `Interrupts`, `BlockMove`, `InterruptedMove` | stack discipline, nested calls, RTI, block moves, block moves with interrupts |
| `Cpu`, `CpuData`, `CpuFlow`, `CpuStep` | the processor in place, and that access flags do not influence it |
| `CpuText` | printing and scanning a processor |
| `Mnemonics`, `Disassembler`, `OpcodeMap` | the second opcode table, its agreement with the executor, and both against the bits of the opcodes |
| `Chains`, `HashIterator`, `HashTable`, `StringHash` | the hash table |
| `Ring`, `Uart`, `UartLaws` | the serial port, and its interrupts and bytes in numbers |

Inputs from outside are parameters: interrupt lines are raised by a sequence of `Lines`, and the socket of the
serial port is an oracle (`Incoming`, the result of `accept`, whether a send fails).

## Findings

Places where the code does not do what one would expect, or what its documentation says. The model follows
the code, and the named members prove what happens.

- RTI masks narrow index registers, but MVN and MVP do not: with XB set, a move that runs X or Y past 0xff is
  changed by an interrupt (`InterruptedMove.InterruptsDoNotMatter`, witness `NarrowMoveDisturbed`).
- RTI in emulation mode does not restore PBR, which the entry clears (`Interrupts.ReturnUndoesEnter`).
- MVN, MVP and XCE can leave index registers wider than XB allows (`Invariants.Widens`, `ExecuteKeeps`).
- In emulation mode PHD, PEA, PEI, PER and JSL near the bottom of page 1 lose what they push
  (`Stack.WordNeedsRoom`, `Stack.LongNeedsRoom`).
- A block move whose destination starts inside its source repeats the first bytes (`BlockMove.OverlapRepeats`).
- Halving the hash table can double it again at once, which moves all nodes twice and leaves the size as it was
  (`HashTable.Table.Remove`, history `HashTable.HalvedAndDoubled`).
- The string hash ignores all but the last eleven characters (`StringHash.LastEleven`).
- The transmit ring of the serial port is never filled, so THRE and TEMT are constant (`Uart.Port.LineSettled`).
- A byte stays in RBR for one more turn after it was read, and reading it again then takes the next byte, which is
  lost (`UartLaws.ReadingTwice`; safe use: `UartLaws.PollingReadsAll`).
- Both identification bits of IIR can be set at once (`Uart.BothCausesShown`, history `Uart.SendThenReceive`).
- SEP reads its operand from bank 0 whatever PBR is (`Quirks.SetBitsFromBankZero`), JMP [abs] does not load PBR
  (`Quirks.JumpLongStaysInBank`), and opcode 0x75 passes the indirect mode with a direct indexed address
  (`Quirks.AddIndexedOperand`).
- The disassembler prints the indirect format for BIT, AND and ROL in the mode dp,X (0x34, 0x35, 0x36) and the indexed
  one for JMP (abs) (0x6c) (`OpcodeMap.FourMisprinted`).
- V is not the signed overflow when the operands of ADC differ in sign, or when negative ones add up in range, nor
  when those of SBC differ in sign (`Quirks.AddOverflow`, `Quirks.SubOverflow`).
- SBC sets C on a borrow but takes a set C to mean that there was none, so that subtractions cannot be chained
  (`Quirks.CarryIsBorrow`, `Quirks.SubtractDoesNotChain`).

## Model

| member | source | states |
|---|---|---|
| `Arith.AddIsAddition` | src/cpu/65816-ops.c:11-102 | the kept result plus the carry-out times the base (256, 65536, 100 or 10000) is the sum of both operands and the carry-in, and a decimal result has decimal digits again; binary and decimal, 8 and 16 bits, for the nibble-by-nibble correction of the code |
| `Arith.SubIsSubtraction` | src/cpu/65816-ops.c:2265-2408 | the result is the first operand less the second and less one more when the carry-in is clear, modulo the base, in all four modes, though the decimal code detects borrows by unsigned wrap-around |
| `Arith.SubUndoesAdd` | src/cpu/65816-ops.c:2265-2408 | subtracting with carry set what was added with carry clear gives the first operand back |
| `CarryChain.ChainAdds` | src/cpu/65816-ops.c:9-142 | a load-add-store chain over any number of digits in memory: stored number plus final carry times base^n equals the sum of the two numbers and the initial carry; decimal sums stay decimal; with byte digits the high byte of C is never touched |
| `CarryChain.CarryIsOverflow` | src/cpu/65816-ops.c:9-142 | the carry after the chain is set if and only if the sum does not fit the digits |
| `CarryChain.SubtractionUndoesAddition` | src/cpu/65816-ops.c:2263-2408 | ADC with carry clear and then SBC with carry set restores all 16 bits of C, also with an 8-bit accumulator |
| `Inverses.LogicBits` | src/cpu/65816-ops.c:144-248 | AND, ORA and EOR combine operand and accumulator at every bit place of the accumulator, leave the other bits of C alone, and set N to the top bit of the result and Z when no bit is set |
| `Inverses.ExclusiveOrTwice` | src/cpu/65816-ops.c:1019-1116 | EOR of the same operand twice restores C |
| `Inverses.ShiftsKeepAllBits` | src/cpu/65816-ops.c:250-328 | result and carry of ASL together are twice the operand; twice the result of LSR plus its carry is the operand |
| `Inverses.RotateBack` | src/cpu/65816-ops.c:2060-2218 | ROR after ROL gives back operand and carry |
| `Inverses.MaskedBits` | src/cpu/65816-ops.c:2726-2808 | TSB sets and TRB clears exactly the bits of the accumulator in the operand |
| `Inverses.ComparisonOrders` | src/cpu/65816-ops.c:645-743 | after a comparison C means not less, Z equal, and N is the top bit of the difference |
| `Inverses.ResetIsBitwiseAnd` | src/cpu/65816-ops.c:2036-2058 | SR after REP is the bitwise and of SR with the complement of the operand, less the bits of XB and M in emulation mode |
| `Inverses.SetIsBitwiseOr` | src/cpu/65816-ops.c:2431-2453 | SR after SEP is the bitwise or of SR with the byte it takes, less the same two bits in emulation mode |
| `Inverses.PullUndoesPushOfFlags` | src/cpu/65816-ops.c:1973-1993 | PLP after PHP restores every flag and SP; emulation mode forces M and XB |
| `Machine.SrRoundTrip` | src/cpu/65816-util.c:25-38 | writing the SR byte of one status into another copies all eight flags |
| `Quirks.SetBitsFromBankZero` | src/cpu/65816-ops.c:2431-2453 | SEP has the effect of its own operand if and only if that and the byte at the same offset of bank 0 agree on every flag still clear, XB and M not counted in emulation mode |
| `Quirks.JumpLongStaysInBank` | src/cpu/65816-ops.c:1239-1247 | JMP [abs] goes to the 24-bit address it finds if and only if that is in the current program bank |
| `Quirks.AddIndexedOperand` | src/cpu/65816.c:306-306 | opcode 0x75 adds the operand of ADC dp,X if and only if the accumulator is 8 bits wide, the address is not 0xffff, or the bytes at 0x10000 and 0 are the same |
| `Quirks.AddIndexedResult` | src/cpu/65816.c:306-306 | for operands that stand for numbers in the mode, the resulting states are the same if and only if those operands are |
| `Quirks.AddOverflow` | src/cpu/65816-ops.c:35-98 | V after a binary ADC is the signed overflow if and only if both operands are positive, or both are negative and the sum is out of range |
| `Quirks.SubOverflow` | src/cpu/65816-ops.c:2301-2368 | V after SBC is the signed overflow if and only if the operands have the same sign |
| `Quirks.CarryIsBorrow` | src/cpu/65816-ops.c:2271-2368 | C after SBC is set if and only if the binary difference has borrowed |
| `Quirks.SubtractDoesNotChain` | src/cpu/65816-ops.c:2263-2408 | so two chained binary SBCs get the low digit right and the high digit wrong by one, for all numbers of two digits |
| `Stack.LastInFirstOut` | src/cpu/65816-util.c:417-527 | every well-nested sequence of byte, word and 24-bit pushes and pulls pulls the values in reverse order, restores SP and changes only the stack bytes it went through: to a depth of 65536 bytes in native mode from any SP, of 256 in emulation mode |
| `Stack.PullPushed` | src/cpu/65816-util.c:474-527 | an item is pulled as it was pushed, whatever happened elsewhere, as long as its own bytes and SP are as they were |
| `Stack.WordNeedsRoom` | src/cpu/65816-util.c:432-446 | in emulation mode a word pushed without regard for page 1 comes back for every value if and only if SP >= 0x102 |
| `Stack.LongNeedsRoom` | src/cpu/65816-util.c:455-463 | and a 24-bit value if and only if SP >= 0x103 |
| `Calls.CallsReturn` | src/cpu/65816-ops.c:1249-1269 | for any tree of nested JSRs and JSLs with arbitrary work between them that keeps SP and the pending return bytes, every call goes to the place its operand names and every RTS and RTL lands on the instruction after its own call, innermost first, in the bank of the call; SP and the return bytes end as they were |
| `Calls.ReturnStep` | src/cpu/65816-ops.c:2248-2261 | RTS comes back to the PC of the call plus 3, RTL to PC plus 4 and the saved bank, if the pushed bytes and SP are still the same |
| `Interrupts.ReturnAfterEnter` | src/cpu/65816-ops.c:2220-2246 | entry and RTI from any placed SP leave exactly the stack frame, 13 cycles in emulation or 15 in native mode, and what RTI cannot bring back: PBR in emulation mode, the high bytes of narrow X and Y in native mode |
| `Interrupts.ReturnUndoesEnter` | src/cpu/65816.c:455-511 | RTI restores the processor if and only if it is in bank 0 in emulation mode, or its index registers fit their width in native mode |
| `Interrupts.InterruptTransparent` | src/cpu/65816.c:455-511 | a step that takes NMI or IRQ and the RTI step of its handler leave all registers and flags as they were, but for the line let go, 3 or 4 stack bytes and 13 or 15 cycles; a second waiting line is then taken from the same place |
| `Interrupts.BothServed` | src/cpu/65816.c:455-511 | with NMI and IRQ waiting together both handlers run and the state is restored after 26 or 30 cycles |
| `BlockMove.MoveCompletes` | src/cpu/65816-ops.c:1638-1700 | exactly C + 1 steps at MVN or MVP finish the move: C = 0xffff, X and Y moved on by the count, DBR the destination, PC + 3, 7 cycles a byte, memory the byte-by-byte copy; no earlier step leaves the instruction |
| `BlockMove.CopyResult` | src/cpu/65816-ops.c:1638-1700 | which source byte each destination byte ends up with, for all overlaps and bank wraps |
| `BlockMove.CopyIsSnapshot` | src/cpu/65816-ops.c:1638-1668 | the copy is faithful when the banks differ or the lead of the destination is 0 or at least the count |
| `BlockMove.OverlapRepeats` | src/cpu/65816-ops.c:1638-1668 | and otherwise there is a memory for which it is not |
| `InterruptedMove.InterruptsDoNotMatter` | src/cpu/65816-ops.c:1638-1700 | a move during whose bytes NMI and IRQ are raised in any pattern, masked or not, goes through the states of the undisturbed move, but for stack bytes, 13 or 15 cycles per interrupt taken and a masked IRQ left waiting, if and only if each interrupt taken comes in bank 0 (emulation) or where narrow index registers are still below 0x100 (native) |
| `InterruptedMove.InterruptedMoveCompletes` | src/cpu/65816-ops.c:1638-1700 | the final state of such a move: the same as without interrupts, with the cycles of both, and IRQ waiting if and only if a masked one was raised or waited before |
| `InterruptedMove.NarrowMoveDisturbed` | src/cpu/65816-ops.c:2235-2239 | witness of the other case: MVN at X = 0xff with XB set leaves X = 0x100, and X = 0 when an interrupt is served after that byte |
| `Invariants.DecodeWellFormed` | src/cpu/65816.c:187-447 | no opcode is dispatched with an addressing mode its operation would crash on |
| `Invariants.ExecuteKeeps` | src/cpu/65816.c:187-447 | every instruction keeps CRASH clear and, in emulation mode, M set and SP in page 1; it keeps the index registers inside their width if and only if it is not MVN or MVP stepping over 0xff or 0, nor XCE staying in native mode with wide values |
| `Invariants.SoundAfterReset` | src/cpu/65816.c:119-152 | on every run after a reset with NMI and IRQ raised arbitrarily the first invariant holds and every step returns OK or STP: the processor never crashes, and as the switch has a case for all 256 opcodes none is unknown |
| `Invariants.FitsThroughout` | src/cpu/65816.c:159-515 | index registers stay inside their width on every run without the two exceptions |
| `Invariants.StoreZeroInEmulation` | src/cpu/65816-ops.c:2608-2649 | STZ, which looks only at M, writes exactly one byte in emulation mode |
| `OpcodeMap.DecodeNamed` | src/cpu/65816.c:187-447 | all 256 opcodes are dispatched to the operation that the table of the disassembler names for them, with the mode it prints, but for the four opcodes below; operand sizes are those of the modes, and an operation is told the mode its address is computed with, but for 0x75 |
| `OpcodeMap.FourMisprinted` | src/debugger/disassembler.c:165-422 | the disassembler prints a mode that the executor does not use for exactly the opcodes 0x34, 0x35, 0x36 and 0x6c |
| `OpcodeMap.DecodeBits` | src/cpu/65816.c:187-447 | opcodes that end in 01, and those in 11 but for two columns, take the operation from bits 5 to 7 and the mode from bits 2 to 4; the exceptions are 0x89 and 0x75 |
| `OpcodeMap.BranchStep` | src/cpu/65816-ops.c:330-391 | a step at any short branch: bits 6 and 7 of the opcode choose N, V, C or Z, bit 5 the value for which the branch is taken; PC goes to the displacement from the next instruction, or there |
| `OpcodeMap.ReportedLengths` | src/debugger/disassembler.c:165-422 | the length of all 256 opcodes, jumps and returns included, and which register can make it longer, from the two digits of the opcode |
| `Addresses.PlainAddresses` | src/cpu/65816-util.c:602-609 | absolute, long, direct, stack and immediate operands are where the bytes of the instruction say: in the data bank, in full, in bank 0, behind the opcode |
| `Addresses.DirectAddresses` | src/cpu/65816-util.c:728-799 | direct operands indexed by X and by Y wrap inside the page exactly in emulation mode with an aligned D, and otherwise inside bank 0 |
| `Addresses.DirectPointers` | src/cpu/65816-util.c:681-773 | (dp), [dp] and (dp,X) go to the two or three bytes found at the pointer |
| `Addresses.IndexedPointers` | src/cpu/65816-util.c:809-964 | (dp),Y, [dp],Y and (sr,S),Y add Y to the address in the pointer modulo 2^24; the pointer of (dp),Y can wrap inside its page |
| `Addresses.IndexedAbsolutes` | src/cpu/65816-util.c:619-657 | absolute and long operands indexed by X or Y are that far from the operand without an index, modulo 2^24 |
| `Addresses.JumpPointers` | src/cpu/65816-util.c:539-592 | (abs) and [abs] find their pointer in bank 0, (abs,X) in the program bank |
| `Addresses.OtherIndex` | src/cpu/65816-util.c:539-964 | no mode depends on an index register that is not its own |
| `Addresses.IndexMoves` | src/cpu/65816-util.c:619-657 | one more in the index register is one more in the address modulo 2^24, for the six modes that index last |
| `Addresses.DirectIndexMoves` | src/cpu/65816-util.c:728-744 | and modulo the page or the bank in the direct page, by X and Y alike |
| `Addresses.IndexZero` | src/cpu/65816-util.c:728-744 | with index 0 the indexed absolute, long and direct modes give the address of the mode without an index |
| `Addresses.PointerIndexZero` | src/cpu/65816-util.c:754-773 | the same for the modes through pointers, but for (dp),Y where its pointer wraps inside the page |
| `Addresses.ShortBranchReach` | src/cpu/65816-util.c:865-876 | a short branch can reach an offset if and only if that is from 128 before to 127 behind the end of the instruction, modulo 2^16 |
| `Addresses.LongBranchReach` | src/cpu/65816-util.c:887-898 | a long branch can reach every offset of its bank |
| `Effects.StepsByOne` | src/cpu/65816-ops.c:1137-1199 | INC leaves the operand plus one, 0 after the last value of the width, and DEC the operand less one; each undoes the other, and N and Z are those of the result |
| `Effects.IncrementIsAddition` | src/cpu/65816-ops.c:1118-1135 | INA leaves the accumulator that adding 0 with the carry set leaves in binary mode |
| `Effects.IndexSteps` | src/cpu/65816-ops.c:1201-1237 | INX, DEX, INY and DEY step their own register by one modulo its width and show it in N and Z; nothing else changes |
| `Effects.Transfers` | src/cpu/65816-ops.c:2651-2724 | each of the twelve transfers moves the register its name begins with to the one it ends with, cut to the width of that one, and changes no other |
| `Effects.TransferFlags` | src/cpu/65816-ops.c:2810-2954 | N and Z are those of the value that arrives, but transfers to SP change no flag |
| `Effects.ExchangeBytes` | src/cpu/65816-ops.c:2972-2979 | XBA swaps the bytes of C, shows the new low one, and undoes itself |
| `Effects.FlagOperations` | src/cpu/65816-ops.c:617-643 | each flag operation gives the one bit of SR in its name its value and leaves the other seven, and everything else, alone |
| `Effects.Exchanges` | src/cpu/65816-ops.c:2981-3002 | XCE swaps C and E and sets M; entering emulation mode narrows X and Y and brings SP into page 1, not entering it sets XB |
| `Effects.FlagMasksOnly` | src/cpu/65816-ops.c:2036-2058 | REP and SEP change only flags of SR, and mask X and Y exactly when XB ends up set outside emulation mode |
| `DataEffects.ReadsOperand` | src/cpu/65816-ops.c:1271-1362 | an operand is the byte at its address or, when wide, that and the next one, around the bank for direct, stack and immediate operands and around memory for all others; a wide immediate is one byte longer |
| `DataEffects.Loads` | src/cpu/65816-ops.c:1271-1556 | LDA, LDX and LDY change their own register to the operand, at its width, and show it; nothing else changes |
| `DataEffects.AddsOperand` | src/cpu/65816-ops.c:9-142 | ADC leaves the low part of the sum in the accumulator and carry, overflow, sign and zero in C, V, N and Z; the other bits of C stay |
| `DataEffects.SubtractsOperand` | src/cpu/65816-ops.c:2263-2408 | SBC leaves the low part of the difference there, with the flags in the same places |
| `DataEffects.Compares` | src/cpu/65816-ops.c:784-896 | CMP, CPX and CPY compare the operand with the register of their name and change only C, Z and N |
| `DataEffects.Tests` | src/cpu/65816-ops.c:393-464 | BIT sets Z if and only if operand and accumulator have no bit in common, copies the top two bits of the operand to N and V, and leaves those alone for an immediate operand |
| `DataEffects.CombinesBits` | src/cpu/65816-ops.c:1708-1809 | each bit of C after AND, ORA and EOR, with N and Z of the result |
| `DataEffects.Stores` | src/cpu/65816-ops.c:2462-2649 | a store puts the register of its name, at its width, at the address and changes nothing else |
| `DataEffects.PutAndFound` | src/cpu/65816-util.c:258-298 | what was put at an address is found there, and all other bytes are as they were |
| `DataEffects.ModifiesOperand` | src/cpu/65816-ops.c:250-328 | a change in place puts what the operation makes of the operand where it was found, and sets the flags of that operation |
| `DataEffects.ModifiesAccumulator` | src/cpu/65816-ops.c:898-915 | the same on the accumulator, whose other bits stay |
| `DataEffects.Rotations` | src/cpu/65816-ops.c:2060-2218 | ROL and ROR take the carry in at one end and put the bit that falls out at the other into it |
| `DataEffects.ShiftsShown` | src/cpu/65816-ops.c:1558-1636 | shifts and rotations show their result in N and Z |
| `DataEffects.MaskShown` | src/cpu/65816-ops.c:2726-2808 | TSB and TRB change Z alone: whether operand and accumulator had no bit in common |
| `StackEffects.Pushes` | src/cpu/65816-ops.c:1811-1931 | which value each of the ten pushes saves, in one byte or two, and where the next instruction is |
| `StackEffects.PushedWord` | src/cpu/65816-util.c:432-446 | the high byte of a pushed word lies above the low one; which two cells these are, and where SP ends |
| `StackEffects.PullRestores` | src/cpu/65816-ops.c:1933-2034 | PLA, PLX, PLY, PLB and PLD give their register the value the push of the same letter saved, if the pushed bytes, SP and the widths are the same again, and show it in N and Z |
| `Targets.JumpStep` | src/cpu/65816-ops.c:1239-1247 | where each jump and BRL goes, from the bytes behind the opcode and the pointers they name; nothing else changes |
| `Calls.CallStep` | src/cpu/65816-ops.c:1249-1269 | JSR and JSL push the address of their last byte and go where their operand says: (PBR, bytes 1 and 2), (byte 3, bytes 1 and 2) or the word at the indexed pointer in the program bank; 6 or 8 cycles |
| `Calls.CallsLikeJumps` | src/cpu/65816-ops.c:1262-1269 | JSR goes where JMP, and JSL where JMP long, with the same operand goes |
| `Vectors.BreakStep` | src/cpu/65816-ops.c:542-567 | BRK goes through 0xfffe or 0xffe6, sets I and clears D; it saves PC + 2 and an SR whose bit 4 is set in emulation mode |
| `Vectors.CoprocessorStep` | src/cpu/65816-ops.c:745-782 | COP goes through 0xfff4 or 0xffe4, or the table entry its operand selects, and saves bit 4 as clear |
| `Vectors.InterruptEntry` | src/cpu/65816.c:455-511 | NMI goes through 0xfffa or 0xffea and leaves I, IRQ with I clear through 0xfffe or 0xffee and sets I; the frames, with bit 4 of SR clear in emulation mode; nothing happens otherwise |
| `Vectors.ResetStep` | src/cpu/65816.c:119-152 | the whole state after a reset and the step that follows: PC from the two bytes at 0xfffc, bank 0, emulation mode, the stack in page 1, X and Y cut to a byte, all else as it was |
| `Vectors.StaysStopped` | src/cpu/65816-ops.c:2455-2460 | after STP no run with any interrupts changes more than the interrupt lines |
| `Vectors.WaitStep` | src/cpu/65816-ops.c:2956-2964 | WAI stays where it is for any number of steps without a line |
| `Vectors.WaitEnds` | src/cpu/65816-ops.c:2956-2964 | with a line raised it is left, to the handler or, with IRQ masked, to the next instruction |
| `CpuStep.StepCpu` | src/cpu/65816.c:159-515 | the step in place ends in the state of the step function; breakpoints stay, and while recording every changed byte is marked as written |
| `CpuStep.Run` | src/cpu/65816.c:159-515 | the same for whole runs with interrupts |
| `CpuStep.RunTwins` | src/cpu/65816-util.c:180-298 | two machines that differ only in access flags and in whether they record accesses agree in all registers, flags and memory values after every run |
| `CpuStep.Reset` | src/cpu/65816.c:119-152 | reset in place, access flags and memory untouched |
| `CpuStep.TakeInterrupt` | src/cpu/65816.c:455-511 | NMI before IRQ, IRQ only with I clear; the line is let go |
| `Cpu.GetAddress` | src/cpu/65816-util.c:539-964 | the effective address of each mode with its own wrap (page, bank, 24 bits), reading memory only |
| `Cpu.PushWord` | src/cpu/65816-util.c:432-446 | both ways a word is pushed; while recording, both cells are marked as written |
| `Cpu.PopWord` | src/cpu/65816-util.c:489-506 | and pulled |
| `CpuData.Read` | src/cpu/65816-ops.c:1271-1362 | the load, logic, comparison and arithmetic family in place; while recording, the first and the last cell of the operand are marked as read |
| `CpuData.Write` | src/cpu/65816-ops.c:2462-2649 | the store family in place |
| `CpuData.Modify` | src/cpu/65816-ops.c:250-328 | the read-modify-write family in place |
| `CpuData.Compare` | src/cpu/65816-ops.c:645-743 | comparison by wrapped subtraction gives the flags of the order |
| `CpuFlow.MoveByte` | src/cpu/65816-ops.c:1638-1700 | one byte of a block move in place |
| `CpuFlow.Enter` | src/cpu/65816.c:460-477 | interrupt entry in place: frame, vector, D cleared, 7 or 8 cycles |
| `CpuFlow.ReturnFromInterrupt` | src/cpu/65816-ops.c:2220-2246 | RTI in place, 6 or 7 cycles |
| `CpuFlow.ExchangeCE` | src/cpu/65816-ops.c:2981-3002 | XCE in place |
| `Disassembler.TablesAgree` | src/debugger/disassembler.c:137-422 | the disassembler's table and the executor give every opcode that goes on with the next instruction (all but jumps, calls, returns, BRK, COP and block moves) the same length, with the same register deciding the width of an immediate operand |
| `Disassembler.LengthsAgree` | src/debugger/disassembler.c:439-511 | after any instruction that does not transfer control PC has moved by exactly the reported length modulo 2^16, for every memory and every M, XB and E |
| `Disassembler.CallLengths` | src/cpu/65816-ops.c:1249-1269 | the place every return from JSR or JSL lands at is PC plus the length reported for the call |
| `Disassembler.MoveLengths` | src/cpu/65816-ops.c:1638-1700 | a block move ends at PC plus the length reported for it |
| `Disassembler.BreakLengths` | src/cpu/65816-ops.c:542-567 | RTI after BRK or COP, at any vector, comes back to PC plus the length reported for them, 2 |
| `Disassembler.GetOpcode` | src/debugger/disassembler.c:439-511 | the length computed from the tables and the widths, changing nothing |
| `CpuText.SaveAndLoad` | src/cpu/65816.c:24-88 | saving any processor and loading the text into another succeeds and copies all 23 values, 64-bit cycle count included |
| `CpuText.SpacedTextRead` | src/cpu/65816.c:52-88 | whatever white space is put around the tokens, the same 23 values are read |
| `CpuText.ConvertPrinted` | src/cpu/65816.c:33-38 | a printed number of each kind, after white space and before a non-digit, is read back with the rest of the text left over |
| `CpuText.WrittenText` | src/cpu/65816.c:33-38 | the text: 23 names in the order of the original, each with a colon and its own register or flag in four or two hexadecimal digits, 0 or 1, or decimal digits |
| `CpuText.ConvertNumber` | src/cpu/65816.c:52-88 | a number with white space, a sign and a prefix before it is read with that sign, and the rest left over, when sign and prefix fit the width |
| `CpuText.DigitsOfBothCases` | src/cpu/65816.c:52-88 | the sixteen digits of either case have their values, and no other character is a digit |
| `CpuText.FromText` | src/cpu/65816.c:52-88 | registers are stored as they are converted, success means all 23 were |
| `HashTable.Replay` | src/util/hashtable.c:107-325 | any history of put, get, contains and remove on a new table answers like a finite map and leaves a valid, balanced table that stands for that map; without removals all doublings together have moved at most three nodes per key |
| `HashTable.Table.PutNia` | src/util/hashtable.c:107-174 | a put updates the map and doubles the table exactly when 5 * items > 6 * size; a doubling moves each node once |
| `HashTable.Table.Double` | src/util/hashtable.c:554-585 | doubling loses nothing, and none of its insertions doubles again |
| `HashTable.Table.Half` | src/util/hashtable.c:593-625 | halving loses nothing; the table ends at half its size if the entries fit it, else a doubling nested in the re-insertion takes it back to its old size; in either case the number of re-inserted nodes is given exactly |
| `HashTable.Table.Rehash` | src/util/hashtable.c:567-579 | the re-insertion loop, with or without a doubling inside it, ends with exactly the entries of the old table |
| `HashTable.Table.Remove` | src/util/hashtable.c:277-325 | removes the entry and returns its value or NULL; the size halves if and only if the key was there, the keys left belong to fewer than half as many buckets as there are, the table is larger than 8 and the entries fit the half; the re-inserted nodes are counted exactly |
| `HashTable.HalvedAndDoubled` | src/util/hashtable.c:593-625 | a history that ends in such a pair: eleven puts of multiples of 16 and one remove leave the table at 16 buckets with each of its ten nodes moved twice by the remove |
| `HashTable.Table.Get` | src/util/hashtable.c:229-247 | the value of the key, NULL when absent |
| `HashTable.Table.ContainsKey` | src/util/hashtable.c:355-373 | true if and only if the map has the key |
| `HashTable.Table.Link` | src/util/hashtable.c:116-163 | insertion into the key-sorted bucket: the map gains the entry, sortedness, key % size, item count and used slots stay right |
| `HashTable.Table.Detach` | src/util/hashtable.c:279-306 | removal from the bucket, with the counts |
| `HashTable.Table.AmortisedCost` | src/util/hashtable.c:164-172 | in a table whose re-insertions are paid for by its entries, which puts keep up as long as nothing is removed, at most three nodes have been moved for each key |
| `Chains.Insert` | src/util/hashtable.c:129-161 | the new node is linked at its place among the sorted keys, or the node of the same key takes over the value; entries and keys of the list afterwards |
| `Chains.SplicedEntries` | src/util/hashtable.c:129-161 | a list with a node of a new key holds exactly one entry more |
| `Chains.WithoutEntries` | src/util/hashtable.c:287-300 | a list without one of its nodes holds exactly the other entries |
| `HashIterator.Iterator.Next` | src/util/hashtable.c:679-701 | yields a node still pending and drops it, null only when none is left; never indexes past the array, though yielded nodes are relinked meanwhile |
| `HashIterator.MembersSize` | src/util/hashtable.c:635-650 | the item count of the table is the number of nodes the iterator has to yield |
| `StringHash.HashString` | src/util/hashtable.c:478-494 | the shift-and-add loop computes the polynomial hash of the characters before the first NUL |
| `StringHash.HashOne` | src/util/hashtable.c:478-494 | one character hashes to its code, modulo 2^64 when that is negative |
| `StringHash.HashConcat` | src/util/hashtable.c:478-494 | h(s + t) = h(s) * 65600^|t| + h(t) modulo 2^64 |
| `StringHash.LastEleven` | src/util/hashtable.c:478-494 | only the last eleven characters matter |
| `StringHash.EleventhCharacter` | src/util/hashtable.c:478-494 | and the eleventh from the end only by its low four bits: two of them collide if and only if they agree modulo 16 |
| `Uart.Run` | src/hw/16C750.c:250-486 | for every sequence of turns with arbitrary socket results and processor accesses: accepted bytes, bytes gone, bytes the socket has taken, socket, FCR, transmit edge and identification bits are exactly the fold of the turns; the receive ring holds the accepted bytes not gone, the transmitter stays empty, DR, THRE and TEMT are right; each result is the pending interrupt and the complement of IIR bit 0, and IIR shows the identification bits; RBR shows the oldest byte before the turn takes it |
| `Uart.Port.Step` | src/hw/16C750.c:250-486 | one turn of it, with the status registers shown in memory and no other cell changed |
| `Uart.NextValid` | src/hw/16C750.c:250-486 | at most 64 bytes ever wait, and nothing accepted, gone or sent is taken back |
| `Uart.BothCausesShown` | src/hw/16C750.c:415-444 | after a turn both identification bits of IIR are set if and only if received data is signalled while the transmit bit was set, or the transmitter while the receive bit was set |
| `Uart.SendThenReceive` | src/hw/16C750.c:415-444 | a reset port that sends a byte and then receives one shows both |
| `Uart.Port.Receive` | src/hw/16C750.c:255-283 | a byte is read only when connected and not full |
| `Uart.Port.Transmit` | src/hw/16C750.c:317-344 | a written byte is handed to the socket if it is open, and added to the bytes sent unless that fails, or in loopback goes to the receive ring if that has room |
| `Uart.Port.FifoControl` | src/hw/16C750.c:380-395 | which FCR writes flush the rings |
| `Uart.Port.Identify` | src/hw/16C750.c:415-468 | the interrupt priority, and all bits of IIR: each cause sets its identification bit and leaves the other, no cause clears both, bits 5 to 7 show the FIFO mode |
| `Uart.Port.Reset` | src/hw/16C750.c:114-127 | IER, FCR, LCR and MCR are 0, IIR 1, LSR 0x60 and MSR 0, and both rings are empty; the socket, the divisor latches and the transmit edge stay |
| `UartLaws.ReceiveInterrupt` | src/hw/16C750.c:32-35 | with the receive interrupt alone enabled, a port that was empty and from which nothing was taken since signals if and only if it has accepted 1, 4, 8 or 14 bytes (by bits 6 and 7 of FCR) with bit 0 of FCR set and bit 5 clear, 1, 16, 32 or 56 with both set, or 1 with bit 0 clear |
| `UartLaws.TransmitInterrupt` | src/hw/16C750.c:415-444 | every byte written to THR raises the transmit interrupt and reading IIR withdraws it; it is signalled with bit 1 of IER, but not while data is ready |
| `UartLaws.FlushEmpties` | src/hw/16C750.c:380-395 | a write to FCR with one of its low two bits set leaves nothing waiting |
| `UartLaws.BytesKept` | src/hw/16C750.c:255-335 | the byte from the socket and the byte looped back by bit 4 of MCR are accepted while fewer than 64 wait |
| `UartLaws.ByteTaken` | src/hw/16C750.c:370-377 | reading RBR takes one byte, unless DLAB is set or none is there |
| `UartLaws.ByteSent` | src/hw/16C750.c:325-340 | a byte written to THR leaves by the open socket, and when the socket is lost |
| `UartLaws.PollingReadsAll` | src/hw/16C750.c:346-377 | a processor that reads RBR only when bytes were waiting, and never in two turns one after the other, reads exactly the accepted bytes, each once and in order |
| `UartLaws.ReadingTwice` | src/hw/16C750.c:346-377 | reading in two turns one after the other takes the next byte too, which has not been shown |
| `UartLaws.OctetBits` | src/hw/16C750.c:401-468 | a status register shown in memory has exactly the bits kept for it |
| `Ring.Buffer.Push` | src/hw/16C750.c:58-70 | appends to the queue unless it holds 64 bytes |
| `Ring.Buffer.Pop` | src/hw/16C750.c:73-85 | takes the oldest byte |
| `Ring.Buffer.PeekPrevious` | src/hw/16C750.c:98-106 | the byte before the read index, with wrap |

## Left out

- Cycle counts of instructions other than block moves, JSR, JSL, RTS, RTL, BRK, COP, RTI and interrupt entry: the
  model leaves `cycles` alone there, so equalities of whole states say nothing about them; page-cross penalties
  differ from operation to operation.
- The V flag in decimal mode, and the carry-out of SBC in decimal mode, which is that of the binary difference.
- Invariants.SoundAfterReset: also covers runs that store past the last memory cell, where the original has no
  meaning and the model drops the byte; for those it is a statement about the model alone.
- Invariants.FitsThroughout: the same.
- CpuStep.StepCpu: excludes a 16-bit STX, STY or STZ whose second byte lies past the last memory cell, where the
  original writes outside its array.
- InterruptedMove.InterruptsDoNotMatter: is about handlers that consist of RTI alone and block moves that do not
  overwrite their own instruction; both are assumptions on the memory, stated as preconditions.
- HashTable.Table.PutNia: the load factors are compared as rationals, not as `float`; the field that stores the
  factor is read only right after it is set and is not modelled.
- `__ht_clear`, `__ht_destroy` and the string-key wrappers of the hash table; failing allocation, NULL tables, and
  overflow of the iterator's `int` counters.
- Uart.Run: setting up and closing sockets is part of the oracle, and what RBR shows when no byte waits is left to
  `Ring.Buffer.PeekPrevious`. The scratch register is not modelled, as the step ignores it.
- CpuText.FromText: conversions of numbers too large for their type are undefined in C and reduced here; flags not
  converted are arbitrary, as the original copies uninitialised variables.
- `src/util/stack.c`, `src/debugger/symbols.c` and `src/debugger/debugger.c`: a growable array, file reading and the
  terminal interface.
- The text of disassembled instructions, and lengths at an address other than PC.
