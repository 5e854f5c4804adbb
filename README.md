# CHIP-8 interpreter core in Dafny

This project models the interpreter object of a small CHIP-8 emulator (`src/chip8.cpp`,
`src/chip8.hpp`) and proves properties of the model. The interpreter has:

- 4 KiB of memory, with an 80-byte hexadecimal font at 0x50 and programs loaded at 0x200;
- sixteen 8-bit registers V0 to VF (VF is the flag register);
- a 16-bit index register I and a 16-bit program counter;
- a sixteen-slot return stack;
- an 8-bit delay timer and an 8-bit sound timer;
- sixteen key flags, written by the host;
- a 64 x 32 monochrome framebuffer.

Each call of `cycle` fetches a big-endian opcode at pc and moves pc past it. It then
dispatches the opcode through a switch to one handler per instruction, and finally
decrements each timer that is above zero.

The project has five modules:

- `Bits` (`bits.dfy`) holds the fixed-width integer types and the C operators `&`, `|`
  and `^`, defined bit by bit. It proves that each bit of a result is the operator applied
  to the same bit of both operands.
- `Display` (`display.dfy`) holds the flat, row-major framebuffer and the XOR sprite draw
  of DXYN, stated cell by cell. It includes one lemma per iteration of the drawing loop.
- `Chip8Spec` (`chip8_spec.dfy`) is the reference semantics, as functions on a `Machine`
  value:
  - the state and the font;
  - `Decode` (the switch) and its inverse `Encode`;
  - `Apply` (the effect of each handler);
  - `Check` (the out-of-range accesses the C++ code would make);
  - `Step` (one whole cycle);
  - `Initial` (the constructor) and `Load` (the ROM copy).
- `Chip8Machine` (`chip8.dfy`) is the interpreter itself: a class `Chip8` with the source's
  fields. Memory, registers, stack, keys and screen are arrays updated in place. The class
  has the constructor, the ROM copy loop, `Cycle`, the switch (`Dispatch`) and one method
  per opcode handler. Each handler is proved to have exactly the effect `Apply` gives its
  instruction, and `Cycle` exactly the effect of `Step`.
- `Chip8Properties` (`chip8_properties.dfy`) holds the properties of the reference
  semantics. Covered areas:
  - decode/encode round trip and the quirks of the switch;
  - pc and timer behaviour over a cycle;
  - the carry, borrow and shift flags, including the boundary cases;
  - the bitwise operators and the random mask;
  - screen frame and draw-twice;
  - call and return;
  - BCD and the register block copies;
  - the font address, the key wait and skips;
  - a two-instruction program run end to end.

Where the C++ code reads or writes outside one of its arrays, the model reports a `Fault`
and changes nothing. The C++ code does no bounds checking, so these cases are undefined
behaviour there. The faults are:

- the fetch at pc 4095 or above;
- 2NNN with sixteen return addresses stacked;
- 00EE with none;
- DXYN reading sprite rows past memory, or lighting a pixel past screen cell 2047;
- EX9E/EXA1 with VX > 15;
- FX33 with I + 2 > 4095;
- FX55/FX65 with I + X > 4095.

When no key is down, FX0A makes `Cycle` return `AwaitingKey` and change nothing. The C++
code instead spins forever inside the cycle, because nothing it runs there can set a key. `Cycle` takes as a
parameter the value the C library's `rand()` would return.

The model keeps the code's behaviour where it departs from the CHIP-8 instruction set as
the COSMAC VIP interpreter defined it:

- 8XY5 and 8XY7 set VF to 1 only when the minuend is strictly greater. On the COSMAC VIP,
  VF is 1 whenever there is no borrow, so 5 - 5 gives VF = 1 there and VF = 0 here
  (`SubtractFlags`, `BorrowExamples`).
- FX29 uses the whole byte VX. The COSMAC VIP uses only its low nibble, the hexadecimal
  digit (`FontGlyphAddress`).
- FX0A stores the key's array value, which is 1 for a pressed key. The COSMAC VIP stores the
  key's number (`WaitKeyStoresFlag`).
- The 9XY0 handler exists, but the switch has no case for group 9. 9XY0 therefore never
  skips, whereas on the COSMAC VIP it skips when VX != VY (`NineNotDispatched`,
  `DecodeUnassigned`).
- Group E is selected on the last nibble only, so any EX?E acts as EX9E and any EX?1 as
  EXA1. The COSMAC VIP decodes the whole low byte (`KeyGroupLastNibble`).

8XY6 and 8XYE shift VX in place and ignore Y, as most later interpreters do
(`EncodeDecode`).

## Model

| member | source | states |
|---|---|---|
| Bits.Wrap8 | src/chip8.cpp:289-296 | the uint8_t result is congruent to the value modulo 256, and is the value itself when it fits |
| Bits.Wrap16 | src/chip8.cpp:59 | the uint16_t result is congruent to the value modulo 2^16, and is the value itself when it fits |
| Bits.BitOr | src/chip8.cpp:309-316 | each bit of a \| b is the OR of the operand bits |
| Bits.BitAnd | src/chip8.cpp:319-326 | each bit of a & b is the AND of the operand bits, and the result is at most either operand |
| Bits.BitXor | src/chip8.cpp:329-336 | each bit of a ^ b is the XOR of the operand bits |
| Bits.BitOfCombine | src/chip8.cpp:309-336 | bit i of a & b, a \| b and a ^ b is the operator applied to bit i of a and of b |
| Bits.AndAtMost | src/chip8.cpp:447-456 | a masked value never exceeds either operand |
| Display.Blank | src/chip8.cpp:208-212 | the cleared framebuffer has 2048 cells, all off |
| Display.PixelIndexDecodes | src/chip8.cpp:477 | the flat index (y+row)*64 + x+col of a sprite pixel determines row and col |
| Display.DrawStep | src/chip8.cpp:468-491 | one pass of the inner drawing loop toggles exactly the cell of a lit sprite pixel, which still holds its value from before the draw |
| Display.CollisionStep | src/chip8.cpp:468-491 | one pass of the inner drawing loop raises the collision flag iff that pixel is lit and its cell was on |
| Display.DrawTwiceRestores | src/chip8.cpp:488-489 | XOR drawing the same sprite twice at the same place restores the screen |
| Display.DrawSprite | src/chip8.cpp:470-491 | the drawn screen differs from the old one exactly on the cells a lit sprite pixel lands on |
| Display.Collides | src/chip8.cpp:480-489 | the collision flag of a draw is set iff some cell that was on is off afterwards |
| Display.RedrawCollides | src/chip8.cpp:480-484 | drawing onto a blank screen never collides; drawing the same sprite again collides whenever it has a lit pixel |
| Chip8Spec.Decode | src/chip8.cpp:61-193 | the switch never yields 9XY0, and every opcode outside groups 0, 8, 9, E and F decodes to an instruction |
| Chip8Spec.Check | src/chip8.cpp:207-614 | only 00EE, 2NNN, DXYN, EX9E, EXA1, FX33, FX55 and FX65 can access outside an array |
| Chip8Spec.CarryFlag | src/chip8.cpp:339-356 | the 8XY4 flag is 0 or 1, and the low byte of the sum plus 256 times the flag is the whole sum |
| Chip8Spec.NotBorrowFlag | src/chip8.cpp:359-404 | the 8XY5/8XY7 flag is 0 or 1; with flag 1 the difference did not wrap, with flag 0 it wrapped or the operands were equal; equal operands always give 0 |
| Chip8Spec.ApplyDraw | src/chip8.cpp:459-493 | DXYN changes only the screen and VF, and VF ends at 0 or 1 |
| Chip8Spec.Execute | src/chip8.cpp:69-193 | an instruction faults iff it would access outside an array, stalls only as FX0A with no key down, and otherwise gives a well-formed machine with the keys unchanged |
| Chip8Spec.Advance | src/chip8.cpp:59 | only pc changes, by 2 modulo 2^16 |
| Chip8Spec.Tick | src/chip8.cpp:195-203 | only the timers change, each dropping by exactly one unless it is already 0 |
| Chip8Spec.Load | src/chip8.cpp:44-47 | only memory changes: the ROM lands at 0x200 and everything below 0x200 is kept |
| Chip8Spec.Digits | src/chip8.cpp:579-592 | three decimal digits below 10 whose value 100a + 10b + c is the byte |
| Chip8Spec.FirstPressed | src/chip8.cpp:531-541 | the lowest key whose flag is nonzero, or none when all sixteen are zero |
| Chip8Spec.Overwrite | src/chip8.cpp:595-614 | the block lands at the offset and every other element is unchanged |
| Chip8Spec.Fetch | src/chip8.cpp:56 | the opcode's high byte is memory[pc] and its low byte memory[pc+1] |
| Chip8Spec.Apply | src/chip8.cpp:207-614 | every handler keeps the sizes of the arrays, sp within the stack, and the keys unchanged |
| Chip8Spec.ApplyControl | src/chip8.cpp:208-513 | 00E0 to 5XY0, 9XY0, BNNN, EX9E and EXA1: jumps, calls, returns and skips leave memory, registers, I and the timers alone, and only 00E0 changes the screen |
| Chip8Spec.ApplyArith | src/chip8.cpp:279-416 | the register instructions change nothing but the registers |
| Chip8Spec.ApplyRandom | src/chip8.cpp:447-456 | CXNN changes nothing but the registers |
| Chip8Spec.ApplyMisc | src/chip8.cpp:431-614 | ANNN sets only I; the F group leaves the screen, pc and the stack alone, changes a timer only when setting it and memory only in FX33 and FX55 |
| Chip8Spec.Step | src/chip8.cpp:54-204 | a cycle that completes keeps the machine well formed and the keys unchanged |
| Chip8Spec.Initial | src/chip8.cpp:14-24 | the constructed state: pc 0x200, the font at 0x50, everything else zero and the screen blank |
| Chip8Machine.Chip8.State | src/chip8.hpp:15-68 | the fields and arrays of the object form a well-formed machine |
| Chip8Machine.Chip8.constructor | src/chip8.cpp:14-24 | fresh arrays and fields equal to Initial(): zeroed state, pc 0x200, the font copied to 0x50 by the loop; opcode and random_num are 0 |
| Chip8Machine.Chip8.LoadRom | src/chip8.cpp:44-47 | the copy loop writes the ROM at 0x200 and nothing else; a ROM longer than 3584 bytes is refused and nothing is written |
| Chip8Machine.Chip8.Cycle | src/chip8.cpp:54-204 | the object's new state and status are exactly Step's outcome: the next machine, a stall on FX0A without a key, or a fault with nothing changed; opcode holds the word fetched at pc |
| Chip8Machine.Chip8.CountDown | src/chip8.cpp:195-203 | each timer above zero drops by one |
| Chip8Machine.Chip8.Dispatch | src/chip8.cpp:69-193 | running the handler the switch selects has the effect Apply gives the instruction |
| Chip8Machine.Chip8.DispatchControl | src/chip8.cpp:69-193 | the control-flow cases of the switch, as ApplyControl |
| Chip8Machine.Chip8.DispatchArith | src/chip8.cpp:95-131 | the register cases of the switch, as ApplyArith |
| Chip8Machine.Chip8.DispatchMisc | src/chip8.cpp:154-192 | the F group of the switch (and ANNN), as ApplyMisc |
| Chip8Machine.Chip8.Op00E0 | src/chip8.cpp:208-212 | every screen cell off, nothing else changed |
| Chip8Machine.Chip8.Op00EE | src/chip8.cpp:215-221 | sp decremented, then pc = stack[sp] |
| Chip8Machine.Chip8.Op1NNN | src/chip8.cpp:224-228 | pc = NNN |
| Chip8Machine.Chip8.Op2NNN | src/chip8.cpp:231-240 | stack[sp] = pc, sp incremented, pc = NNN |
| Chip8Machine.Chip8.Op3XNN | src/chip8.cpp:243-252 | pc advanced by 2 (mod 2^16) iff VX == NN |
| Chip8Machine.Chip8.Op4XNN | src/chip8.cpp:255-264 | pc advanced by 2 iff VX != NN |
| Chip8Machine.Chip8.Op5XY0 | src/chip8.cpp:267-276 | pc advanced by 2 iff VX == VY |
| Chip8Machine.Chip8.Op6XNN | src/chip8.cpp:279-286 | VX = NN |
| Chip8Machine.Chip8.Op7XNN | src/chip8.cpp:289-296 | VX = VX + NN mod 256, VF untouched |
| Chip8Machine.Chip8.Op8XY0 | src/chip8.cpp:299-306 | VX = VY |
| Chip8Machine.Chip8.Op8XY1 | src/chip8.cpp:309-316 | VX = VX \| VY |
| Chip8Machine.Chip8.Op8XY2 | src/chip8.cpp:319-326 | VX = VX & VY |
| Chip8Machine.Chip8.Op8XY3 | src/chip8.cpp:329-336 | VX = VX ^ VY |
| Chip8Machine.Chip8.Op8XY4 | src/chip8.cpp:339-356 | VF = carry, then VX = low byte of VX + VY |
| Chip8Machine.Chip8.Op8XY5 | src/chip8.cpp:359-374 | VF = (VX > VY), then VX = VX - VY mod 256 |
| Chip8Machine.Chip8.Op8XY6 | src/chip8.cpp:377-386 | VF = low bit of VX, then VX halved |
| Chip8Machine.Chip8.Op8XY7 | src/chip8.cpp:389-404 | VF = (VY > VX), then VX = VY - VX mod 256 |
| Chip8Machine.Chip8.Op8XYE | src/chip8.cpp:407-416 | VF = high bit of VX, then VX doubled mod 256 |
| Chip8Machine.Chip8.Op9XY0 | src/chip8.cpp:419-428 | pc advanced by 2 iff VX != VY (the handler; never dispatched) |
| Chip8Machine.Chip8.OpANNN | src/chip8.cpp:431-436 | I = NNN |
| Chip8Machine.Chip8.OpBNNN | src/chip8.cpp:439-444 | pc = V0 + NNN |
| Chip8Machine.Chip8.OpCXNN | src/chip8.cpp:447-456 | random_num = rand() % 255 and VX = random_num & NN, as ApplyRandom |
| Chip8Machine.Chip8.OpDXYN | src/chip8.cpp:459-493 | the screen becomes the XOR draw of the N-byte sprite at I with its corner at (VX mod 64, VY mod 32), and VF is 1 iff a lit pixel hit a cell that was on |
| Chip8Machine.Chip8.DrawRow | src/chip8.cpp:470-492 | one pass of the row loop extends the partial draw and the collision flag by that row's eight pixels |
| Chip8Machine.Chip8.DrawPixel | src/chip8.cpp:474-491 | one pass of the column loop extends the partial draw and the collision flag by one pixel |
| Chip8Machine.Chip8.OpEX9E | src/chip8.cpp:496-503 | pc advanced by 2 iff key[VX] is nonzero |
| Chip8Machine.Chip8.OpEXA1 | src/chip8.cpp:506-513 | pc advanced by 2 iff key[VX] is zero |
| Chip8Machine.Chip8.OpFX07 | src/chip8.cpp:516-521 | VX = delay timer |
| Chip8Machine.Chip8.OpFX0A | src/chip8.cpp:524-543 | with a key down, VX = the flag value of the lowest pressed key |
| Chip8Machine.Chip8.OpFX15 | src/chip8.cpp:546-551 | delay timer = VX |
| Chip8Machine.Chip8.OpFX18 | src/chip8.cpp:554-559 | sound timer = VX |
| Chip8Machine.Chip8.OpFX1E | src/chip8.cpp:562-567 | I = I + VX mod 2^16 |
| Chip8Machine.Chip8.OpFX29 | src/chip8.cpp:570-576 | I = 0x50 + 5 * VX |
| Chip8Machine.Chip8.OpFX33 | src/chip8.cpp:579-592 | memory[I..I+3] = the decimal digits of VX, the rest of memory unchanged |
| Chip8Machine.Chip8.OpFX55 | src/chip8.cpp:595-603 | memory[I..I+X+1] = V0..VX, the rest of memory unchanged |
| Chip8Machine.Chip8.OpFX65 | src/chip8.cpp:606-614 | V0..VX = memory[I..I+X+1], the other registers unchanged |
| Chip8Properties.Fields | src/chip8.cpp:61-67 | the X, Y, N, NN and NNN masks and shifts recover the nibbles an opcode is built from |
| Chip8Properties.DecodeEncode | src/chip8.cpp:69-193 | every dispatched instruction is decoded back, operands included, from its canonical opcode |
| Chip8Properties.DecodeEncodeAddr | src/chip8.cpp:80-85 | the round trip for 1NNN, 2NNN, ANNN and BNNN |
| Chip8Properties.DecodeEncodeImm | src/chip8.cpp:86-100 | the round trip for 3XNN, 4XNN, 6XNN, 7XNN and CXNN |
| Chip8Properties.DecodeEncodeLogic | src/chip8.cpp:92-114 | the round trip for 5XY0, 8XY0, 8XY1, 8XY2 and 8XY3 |
| Chip8Properties.DecodeEncodeArith | src/chip8.cpp:115-130 | the round trip for 8XY4, 8XY5, 8XY6, 8XY7 and 8XYE |
| Chip8Properties.DecodeEncodeKey | src/chip8.cpp:144-153 | the round trip for EX9E and EXA1 |
| Chip8Properties.DecodeEncodeTimers | src/chip8.cpp:154-171 | the round trip for FX07, FX15 and FX18 |
| Chip8Properties.DecodeEncodeWaitAndIndex | src/chip8.cpp:160-175 | the round trip for FX0A and FX1E |
| Chip8Properties.DecodeEncodeFontAndBcd | src/chip8.cpp:176-183 | the round trip for FX29 and FX33 |
| Chip8Properties.DecodeEncodeBlocks | src/chip8.cpp:184-191 | the round trip for FX55 and FX65 |
| Chip8Properties.DecodeUnassigned | src/chip8.cpp:69-193 | an opcode matches no case iff it is in group 0 other than 00E0/00EE, 8XY8 to 8XYD or 8XYF, group 9, group E with a last nibble other than E and 1, or group F with an unknown NN |
| Chip8Properties.Nibbles | src/chip8.cpp:61-67 | an opcode is recomposed from its four nibbles, and NN and NNN are its low nibbles |
| Chip8Properties.EncodeDecode | src/chip8.cpp:69-193 | encoding what an opcode decodes to gives the opcode back, with the nibbles the switch ignores normalised: the last nibble of 5XY?, Y of 8XY6 and 8XYE, the third nibble of EX?E and EX?1 |
| Chip8Properties.EncodeDecodeFields | src/chip8.cpp:70-143 | EncodeDecode for groups 0 to 7 and 9 to D |
| Chip8Properties.EncodeDecodeEight | src/chip8.cpp:92-131 | EncodeDecode for group 8 |
| Chip8Properties.EncodeDecodeKeyAndMisc | src/chip8.cpp:144-192 | EncodeDecode for groups E and F |
| Chip8Properties.NineNotDispatched | src/chip8.cpp:69-193 | every 9XY? opcode decodes to nothing, so a cycle on it only advances pc and the timers |
| Chip8Properties.KeyGroupLastNibble | src/chip8.cpp:144-153 | in group E only the last nibble is looked at: any EX?E is EX9E and any EX?1 is EXA1 |
| Chip8Properties.UnassignedOnlyAdvances | src/chip8.cpp:54-204 | an opcode no case matches changes only pc (+2) and the timers |
| Chip8Properties.StepAdvancesPc | src/chip8.cpp:59 | after a non-control instruction pc is two past the opcode, modulo 2^16 |
| Chip8Properties.StepCountsDown | src/chip8.cpp:195-203 | unless the instruction sets that timer, each timer is one less after a cycle and stays at 0 |
| Chip8Properties.Run | src/chip8.cpp:54-204 | the machine after any number of completed cycles is well formed, with the keys unchanged |
| Chip8Properties.RunCountsDown | src/chip8.cpp:195-203 | k completed cycles that do not set a timer take min(k, t) off a timer holding t: a delay of 5 reads 0 after five cycles and after a sixth |
| Chip8Properties.AddRegSum | src/chip8.cpp:339-356 | for X and Y other than F: VX' + 256 * VF' = VX + VY, VF' <= 1, other registers unchanged |
| Chip8Properties.SubtractFlags | src/chip8.cpp:359-404 | for X and Y other than F: VX' is the difference mod 256; VF' = 1 iff the minuend is strictly greater, and 0 otherwise |
| Chip8Properties.ShiftFlags | src/chip8.cpp:377-416 | for X other than F: 2 * VX' + VF' = VX with VF' bit 0, and VX' + 256 * VF' = 2 * VX with VF' bit 7 |
| Chip8Properties.AddRegIntoFlag | src/chip8.cpp:339-356 | with X = F the carry written first is the left operand: VF' = (carry + VY) mod 256 |
| Chip8Properties.AddFlagOperand | src/chip8.cpp:339-356 | with Y = F the carry c of VX + VF is written first, so VF' = c and VX' = (VX + c) mod 256 |
| Chip8Properties.SubtractFlagOperand | src/chip8.cpp:359-404 | with Y = F the flag compares against the old VF, and VX' is then taken against the new flag: VX' = (VX - VF') mod 256 for 8XY5 and (VF' - VX) mod 256 for 8XY7 |
| Chip8Properties.SubtractIntoFlag | src/chip8.cpp:359-404 | with X = F, 8FY5 leaves VF = (flag - VY) mod 256 and 8FY7 leaves VF = (VY - flag) mod 256, the flag being the comparison written first |
| Chip8Properties.ShiftFlagRegister | src/chip8.cpp:377-416 | with X = F, 8FY6 always leaves VF = 0 and 8FYE leaves VF = 2 * (old top bit) |
| Chip8Properties.CarryExample | src/chip8.cpp:339-356 | 255 + 1 gives 0 with VF 1 |
| Chip8Properties.BorrowExamples | src/chip8.cpp:359-404 | 5 - 5 gives 0 with VF 0; 5 - 10 gives 251 with VF 0; 10 - 5 by 8XY7 gives 5 with VF 1 |
| Chip8Properties.ArithApply | src/chip8.cpp:279-416 | a register instruction has exactly the effect ApplyArith gives it |
| Chip8Properties.LogicBitwise | src/chip8.cpp:309-336 | 8XY1, 8XY2 and 8XY3 set each bit of VX to the operator's bit table applied to that bit of VX and of VY |
| Chip8Properties.RandomMasked | src/chip8.cpp:447-456 | CXNN leaves VX <= NN and VX <= 254 |
| Chip8Properties.ScreenOnlyByDrawing | src/chip8.cpp:207-614 | every instruction other than 00E0 and DXYN leaves the screen unchanged |
| Chip8Properties.ClearBlanks | src/chip8.cpp:208-212 | after 00E0 every cell is off |
| Chip8Properties.DrawTwice | src/chip8.cpp:459-493 | DXYN twice restores the screen; from a blank screen the first sets VF 0 and the second VF 1 when the sprite has a lit pixel |
| Chip8Properties.DrawFlagMeansErased | src/chip8.cpp:480-489 | after DXYN, VF is 1 iff some pixel that was on is now off |
| Chip8Properties.CallThenReturn | src/chip8.cpp:215-240 | 2NNN then 00EE restores pc and sp, the used stack slot holding the return address |
| Chip8Properties.Calls | src/chip8.cpp:231-240 | n nested calls keep the machine well formed and leave sp n higher |
| Chip8Properties.Rets | src/chip8.cpp:215-221 | k returns keep the machine well formed, lower sp by k and leave the stack contents alone |
| Chip8Properties.CallsPush | src/chip8.cpp:231-240 | nested calls stack the pc of the first call and then each address but the last above the slots in use, jump to the last address, and change nothing but pc, sp and the stack |
| Chip8Properties.RetsPop | src/chip8.cpp:215-221 | k returns resume at the address k slots below sp and change nothing but pc and sp |
| Chip8Properties.NestedCallsReturn | src/chip8.cpp:215-240 | n nested calls followed by n returns restore pc and sp, keep the slots below the first call's, and change nothing but the stack |
| Chip8Properties.StepCall | src/chip8.cpp:56-59 | a cycle running 2NNN jumps to NNN and pushes the address two past the call |
| Chip8Properties.StackLimits | src/chip8.cpp:215-240 | a call with sixteen return addresses stacked, and a return with none, are faults and nothing else is |
| Chip8Properties.MemoryOnlyByStores | src/chip8.cpp:207-614 | only FX33 and FX55 change memory |
| Chip8Properties.StoreBcdDigits | src/chip8.cpp:579-592 | FX33 writes digits below 10 at I, I+1, I+2 whose value is VX, and nothing else |
| Chip8Properties.BcdExample | src/chip8.cpp:579-592 | 157 gives 1, 5, 7; 0 gives 0, 0, 0; 255 gives 2, 5, 5 |
| Chip8Properties.CopyOutAndBack | src/chip8.cpp:595-614 | copying a block out of a sequence and back to the same place leaves it unchanged |
| Chip8Properties.StoreRegsEffect | src/chip8.cpp:595-603 | FX55 cannot fault when I + X fits, and only memory from I changes, to V0..VX |
| Chip8Properties.LoadRegsEffect | src/chip8.cpp:606-614 | FX65 cannot fault when I + X fits, and only V0..VX change, to memory from I |
| Chip8Properties.StoreThenLoad | src/chip8.cpp:595-614 | FX55 then FX65 with the same X and I leaves the machine as FX55 left it |
| Chip8Properties.LoadThenStore | src/chip8.cpp:595-614 | FX65 then FX55 with the same X and I leaves memory as it was |
| Chip8Properties.AddIndexWraps | src/chip8.cpp:562-567 | FX1E gives I + VX mod 2^16, exactly I + VX when that fits |
| Chip8Properties.FontGlyphAddress | src/chip8.cpp:570-576 | with the font in place and VX < 16, I points at VX's five glyph bytes; a larger VX points past the font |
| Chip8Properties.WaitKeyStoresFlag | src/chip8.cpp:524-543 | FX0A stalls iff no key is down; otherwise VX takes the nonzero value of the lowest pressed key, which is 1 for 0/1 key flags |
| Chip8Properties.KeySkips | src/chip8.cpp:496-513 | EX9E skips iff key[VX] is down and EXA1 iff it is not; for both, VX > 15 is a fault and nothing else is |
| Chip8Properties.LoadPlacesRom | src/chip8.cpp:44-47 | the ROM lands at 0x200, the rest of the machine is unchanged, and on a fresh machine the font survives |
| Chip8Properties.StepArith | src/chip8.cpp:54-204 | a cycle on a register instruction is the fetch, pc + 2, the register update and the timer step |
| Chip8Properties.AddProgramFirstCycle | src/chip8.cpp:279-286 | the first cycle of the ROM 60 05 70 03 at 0x200 sets V0 = 5 and moves pc to 0x202 |
| Chip8Properties.LoadAddProgram | src/chip8.cpp:54-204 | the ROM 60 05 70 03 loaded at 0x200 and run for two cycles gives V0 = 8 whatever V0 held, the other registers unchanged and pc = 0x204 |

## Left out

- Opening and reading the ROM file in `loadROM` is not modelled. `LoadRom` takes the bytes
  that would have been read.
- `LoadRom` refuses ROMs longer than 3584 bytes without writing anything. The C++ loop would
  write past the end of memory instead.
- Seeding the generator with `srand(time(NULL))` is not modelled. CXNN takes the value
  `rand()` returns as a parameter.
- The C++ code does no bounds checking. Out-of-range accesses, which are undefined
  behaviour there, become explicit faults that leave the state unchanged. The model does not
  capture what the C++ program would actually do in those cases.
- FX0A's busy-wait with no key down is not modelled. Such a cycle reports `AwaitingKey` and
  changes nothing, so the host retries once it has set a key. The C++ code would never
  return, because nothing inside the loop can change the keys.
- The screen's `uint32_t` cells are modelled as booleans. The handlers only ever store
  0x00000000 or 0xFFFFFFFF in them.
- The unused `NNN` local of `cycle` is left out. Its `uint8_t` type would truncate the
  address, but no handler reads it.
- The rendering, window, input polling and audio of `graphics.cpp`, `graphics.hpp` and
  `main.cpp`, and the pacing between cycles, are not part of this model.
- The `random_num` field is kept in the class but is not part of the machine value.
  `OpCXNN` states its new value (`rand() % 255`), but `Cycle` does not promise anything
  about it.
- Chip8Spec.Step and Chip8Machine.Chip8.Cycle: a fault at fetch is reported before pc
  moves, whereas the C++ code would first read past memory.
