# A verified model of the CHIP-8 engine of `src/chip8.rs`

This project models the `Chip8` interpreter engine: its struct and `new`, `initialize`,
the copy loop of `load`, `emulate_cycle` with all 35 opcodes and the timer tick, and the
accessors `get_gfx`, `update_keystate`, `set_register_to_keypress`, `check_draw_sema` and
`check_key_sema`. It then proves properties of that model.

The model has two layers.

- **Value layer.** `ChipTypes.Machine` is the whole struct as a value. `Semantics` gives
  one function per opcode arm. `Semantics.Step` is one `emulate_cycle`: fetch, decode,
  execute, tick.
- **Imperative layer.** `Engine.Chip8` is a class with the struct's fields. Its buffers
  are arrays, and its methods repeat the source's statements and loops in place. Each
  method is proved to leave the object in the state the value layer gives, so
  `State() == e.value` holds for the arm's result `e`.

The properties are proved over the value layer:

- the flags of the 8XYN arithmetic;
- the XOR theory of DXYN;
- the round trips of FX55/FX65 and of a call and its return;
- the font;
- the timers;
- which fields each opcode may change;
- two invariants every cycle keeps: the stack pointer stays within the stack, and every
  framebuffer cell stays 0 or 1.

**Panics.** The source is taken as built with Rust's debug overflow checks. Every
`panic!`, `unimplemented!`, out-of-bounds index and arithmetic overflow therefore becomes
an explicit `Fault`. A u8, u16 or i16 `+`, `-` or `*` that overflows becomes
`ArithmeticOverflow`, except the u8 `sp -= 1` of 00EE, which becomes `StackUnderflow`. A shift by one never panics: the u8 `<<= 1` of 8XYE drops the top
bit. The `wrapping_*` and `checked_*` calls are modelled as they compute.

**Behaviour of the code that differs from the usual CHIP-8 conventions, modelled as the code
has it:**

- **8XY5** sets VF from `checked_sub`, but stores `wrapping_add` in VX instead of the
  difference (`Properties.SubRegAdds`).
- **VF is written before VX.** In 8XY4, 8XY5, 8XY6, 8XY7, 8XYE and FX1E, VF is written first.
  The value then stored is computed from the registers as they are after that write.
  So when X or Y is F, the new flag, not the old VF, enters the result. For example,
  8FF6 always leaves VF = 0, 8FFE leaves VF = 0 or 2, and FX1E with X = F adds the flag
  itself to I (`Properties.AddRegIntoFlag`, `Properties.AddRegFromFlag`,
  `Properties.SubRegWithFlag`, `Properties.SubNWithFlag`, `Properties.ShiftRightIntoFlag`,
  `Properties.ShiftLeftIntoFlag`, `Properties.AddIndexIntoFlag`).
- **00EE** returns to the stored address plus 2. 2NNN stores the address of the call
  itself.
- **FX0A** does not wait for a key and does not write VX. It raises `key_sema` and moves on.
- **DXYN** neither wraps nor clips. A set pixel that lands past cell 2047 is an index
  fault, and `I + row` is an i16 addition.
- **FX29** computes `VX * 5 + 80` in u8, so VX ≥ 36 overflows.
- **Memory faults.** There is no separate range check on addresses. An address outside
  memory faults where the Rust bounds check of the indexing would panic.

## Model

| member | source | states |
|---|---|---|
| ChipTypes.Flip | src/chip8.rs:402 | `cell ^= 1` flips the lowest bit of a cell and keeps the others |
| ChipTypes.WrapI16 | src/chip8.rs:492-494 | the i16 `wrapping_add` result is congruent to the sum modulo 2^16 |
| Semantics.Fetch | src/chip8.rs:130 | the fetch succeeds exactly when PC and PC+1 index memory; it then gives the big-endian opcode there, and otherwise the faulting index |
| Semantics.Tick | src/chip8.rs:552-557 | each timer drops by one when nonzero and stays at zero otherwise; nothing else changes |
| Semantics.NewMachine | src/chip8.rs:34-50 | the machine `new` builds: every field, register, array cell, timer and flag zero or false |
| Semantics.Initialized | src/chip8.rs:55-94 | `initialize`: PC 0x200, opcode, I and SP 0, memory holding only the font, gfx, stack, registers and keys zero, timers and semaphores kept |
| Semantics.LoadedMemory | src/chip8.rs:114-116 | the copy loop puts ROM byte k at 0x200 + k for every byte that fits and leaves all other memory as it was |
| Semantics.LoadOutcome | src/chip8.rs:114-116 | `load` succeeds exactly when the ROM has at most 3584 bytes, and otherwise panics at index 4096 |
| Semantics.Step | src/chip8.rs:124-558 | one `emulate_cycle`: a fetch fault and an unknown opcode are reported as such; on success the opcode field holds the fetched opcode and the keys are untouched (`Properties.StepRuns` gives the rest) |
| Semantics.Execute | src/chip8.rs:136-550 | a successful arm leaves a well-formed machine with the opcode and keys unchanged (`Frames.ExecuteFrame` gives each arm's frame) |
| Semantics.ExecuteSystem | src/chip8.rs:138-161 | the 0NNN family keeps the opcode and keys; 0NNN itself is the `unimplemented!` fault |
| Semantics.ReturnEffect | src/chip8.rs:148-153 | 00EE succeeds exactly when 0 < SP ≤ 16 and the stored address + 2 fits in u16; SP 0 underflows; on success SP drops by one, PC is the popped address + 2, and nothing else changes |
| Semantics.ExecuteArith | src/chip8.rs:232-347 | an 8XYN arm never faults, changes only the registers and moves PC by 2 |
| Semantics.AddRegEffect | src/chip8.rs:271-287 | 8XY4 changes only VX, VF and PC (+ 2), and VF is 0 or 1 when X ≠ F (`Properties.AddRegCarry` gives the values) |
| Semantics.SubRegEffect | src/chip8.rs:289-305 | 8XY5 changes only VX, VF and PC (+ 2), and VF is 0 or 1 when X ≠ F (`Properties.SubRegAdds` gives the values) |
| Semantics.ShiftRightEffect | src/chip8.rs:307-314 | 8XY6 changes only VX, VF and PC (+ 2), and VF is 0 or 1 when X ≠ F (`Properties.ShiftRightBit` gives the values) |
| Semantics.SubNEffect | src/chip8.rs:316-332 | 8XY7 changes only VX, VF and PC (+ 2), and VF is 0 or 1 when X ≠ F (`Properties.SubNBorrow` gives the values) |
| Semantics.ShiftLeftEffect | src/chip8.rs:334-341 | 8XYE changes only VX, VF and PC (+ 2), and VF is 0 or 1 when X ≠ F (`Properties.ShiftLeftBit` gives the values) |
| Semantics.ExecuteTimerOrMemory | src/chip8.rs:445-545 | a successful FXNN arm keeps the opcode and keys and moves PC by 2; FX0A only raises `key_sema` and moves PC by 2 |
| Semantics.AddIndexEffect | src/chip8.rs:482-497 | FX1E changes only VF, I and PC (+ 2), and VF is 0 or 1 (`Properties.AddIndexOverflow` gives the values) |
| Semantics.FontCharEffect | src/chip8.rs:499-506 | FX29 succeeds exactly when VX < 36, faults with an overflow otherwise, and on success sets only I, to 80 + 5 * VX, and PC (+ 2) |
| Semantics.BcdEffect | src/chip8.rs:508-517 | FX33 succeeds exactly when I..I+2 are in memory, reports I or 4096 as the faulting index otherwise, and changes only memory and PC (+ 2) |
| Semantics.StoreRegsEffect | src/chip8.rs:519-528 | FX55 succeeds exactly when I..I+X are in memory, reports I or 4096 as the faulting index otherwise, and changes only memory and PC (+ 2) |
| Semantics.LoadRegsEffect | src/chip8.rs:530-539 | FX65 succeeds exactly when I..I+X are in memory, reports I or 4096 as the faulting index otherwise, and changes only the registers and PC (+ 2) |
| Semantics.StoredMemory | src/chip8.rs:519-528 | memory[I + k] = Vk for every k ≤ X inside memory, and every other byte kept |
| Semantics.LoadedRegisters | src/chip8.rs:530-539 | Vk = memory[I + k] for k ≤ X, and the registers above X kept |
| Semantics.ExecuteFlow | src/chip8.rs:163-213 | the jumps, the call and the skips (also src/chip8.rs:349-372 and 415-436) write no register and no memory and keep the opcode and keys; only 2NNN and the key skips can fault |
| Semantics.CallEffect | src/chip8.rs:169-175 | 2NNN succeeds exactly when SP < 16, faulting on `stack[sp]` otherwise; on success the return address is pushed at SP, SP grows by one, PC is NNN, and the other stack entries and fields are kept |
| Semantics.SkipKeyEffect | src/chip8.rs:415-436 | EX9E and EXA1 succeed exactly when VX < 16, faulting on `key[VX]` otherwise; on success only PC changes, by 4 exactly when the key's state is the one the opcode tests, else by 2 |
| Semantics.ExecuteLoadOrDraw | src/chip8.rs:215-230 | 6XNN, 7XNN, ANNN and CXNN (src/chip8.rs:361-381) never fault; with DXYN (src/chip8.rs:383-409), a successful arm keeps the opcode and keys and moves PC by 2 |
| Semantics.DrawEffect | src/chip8.rs:383-409 | a successful DXYN changes only gfx and VF, raises the draw semaphore and moves PC by 2 (`Drawing.DrawXor` gives the XOR) |
| Semantics.DrawPixel | src/chip8.rs:396-404 | one pixel keeps the framebuffer at 2048 cells; it tests the sprite bit with `Semantics.SpriteBit` (src/chip8.rs:398) and indexes with `Semantics.Position` (src/chip8.rs:397) (`Drawing.PixelEffect` gives its effect) |
| Semantics.DrawColumns | src/chip8.rs:396-404 | the pixels of a row keep the framebuffer at 2048 cells (`Drawing.ColumnsEffect` gives their effect) |
| Semantics.DrawRow | src/chip8.rs:395-404 | one row keeps the framebuffer at 2048 cells (`Drawing.RowEffect` gives its effect) |
| Semantics.DrawRows | src/chip8.rs:393-405 | the row loop keeps the framebuffer at 2048 cells (`Drawing.RowsEffect` gives its effect and `Frames.RowsBinary` keeps it 0/1) |
| Drawing.PixelEffect | src/chip8.rs:396-404 | with X, Y ≠ F, a pixel drawn after the on-screen cells s0 have been flipped faults exactly when its bit is set and lands off screen; otherwise the framebuffer is the original with s0 and its own cell flipped, and VF records whether any of those was lit |
| Opcodes.Decode | src/chip8.rs:136-549 | decoding fails exactly for the opcodes that reach one of the `panic!` arms, with that opcode as the fault |
| Opcodes.Fields | src/chip8.rs:136-549 | an opcode is its four nibbles, and NN and NNN are made of its lower nibbles |
| Opcodes.DecodeEncode | src/chip8.rs:136-549 | every instruction decodes back from its standard encoding |
| Opcodes.EncodeDecode | src/chip8.rs:136-549 | every opcode that decodes re-encodes to itself, so no operand field is lost |
| Engine.Chip8.constructor | src/chip8.rs:34-50 | `new` gives a machine with all fields and arrays zero |
| Engine.Chip8.Initialize | src/chip8.rs:55-94 | the whole new state is `Initialized` of the old one |
| Engine.Chip8.ClearGfx | src/chip8.rs:63-65 | the loop leaves every framebuffer cell zero |
| Engine.Chip8.ClearStack | src/chip8.rs:68-70 | the loop leaves every stack entry zero |
| Engine.Chip8.ClearRegisters | src/chip8.rs:73-75 | the loop leaves V0..VF zero |
| Engine.Chip8.ClearKeys | src/chip8.rs:78-80 | the loop leaves every key zero |
| Engine.Chip8.ClearMemory | src/chip8.rs:83-85 | the loop leaves every memory byte zero |
| Engine.Chip8.LoadFont | src/chip8.rs:88-90 | on cleared memory, the loop leaves `Semantics.FontMemory`: the font at 80 and zero elsewhere |
| Engine.Chip8.Load | src/chip8.rs:114-116 | the ROM bytes are copied from 0x200 on; a ROM longer than 3584 bytes faults at index 4096 after the bytes that fit are copied |
| Engine.Chip8.EmulateCycle | src/chip8.rs:124-558 | one cycle reports the outcome of `Step`, and on success leaves exactly the state `Step` gives |
| Engine.Chip8.TickTimers | src/chip8.rs:552-557 | the new state is `Tick` of the old one |
| Engine.Chip8.ExecSystem | src/chip8.rs:138-161 | 00E0, 00EE and 0NNN; 0NNN is `unimplemented!` |
| Engine.Chip8.ClearScreenOp | src/chip8.rs:140-146 | the framebuffer is cleared, the draw semaphore raised and PC advanced by 2 |
| Engine.Chip8.ReturnOp | src/chip8.rs:148-153 | `sp -= 1` underflows at 0, and PC becomes the popped address plus 2 (a u16 addition) |
| Engine.Chip8.ExecArith | src/chip8.rs:232-347 | the 8XYN arms, each agreeing with its value-layer function |
| Engine.Chip8.AddRegOp | src/chip8.rs:271-287 | 8XY4: VF is written first, then VX from the updated registers |
| Engine.Chip8.SubRegOp | src/chip8.rs:289-305 | 8XY5: VF from `checked_sub`, then VX receives the wrapping sum |
| Engine.Chip8.ShiftRightOp | src/chip8.rs:307-314 | 8XY6: VF is the low bit, then VX is shifted right |
| Engine.Chip8.SubNOp | src/chip8.rs:316-332 | 8XY7: VF is the no-borrow flag of VY - VX, then VX is the wrapped difference |
| Engine.Chip8.ShiftLeftOp | src/chip8.rs:334-341 | 8XYE: VF is the top bit, then VX is shifted left in u8 |
| Engine.Chip8.ExecTimerOrMemory | src/chip8.rs:445-545 | the FXNN arms, each agreeing with its value-layer function |
| Engine.Chip8.AddIndexOp | src/chip8.rs:482-497 | FX1E: VF flags i16 overflow, then I wraps |
| Engine.Chip8.FontCharOp | src/chip8.rs:499-506 | FX29: the u8 overflow of `VX * 5 + 80` faults; otherwise I is set to it |
| Engine.Chip8.BcdOp | src/chip8.rs:508-517 | FX33: the three digit writes, each bounds-checked in turn |
| Engine.Chip8.StoreRegsOp | src/chip8.rs:519-528 | the FX55 loop copies V0..VX to memory from I on, faulting at the first index outside memory |
| Engine.Chip8.LoadRegsOp | src/chip8.rs:530-539 | the FX65 loop copies memory from I on to V0..VX, faulting at the first index outside memory |
| Engine.Chip8.ExecFlow | src/chip8.rs:163-213 | 1NNN, 2NNN, the register skips, BNNN (src/chip8.rs:368-372) and the key skips (src/chip8.rs:415-436), each agreeing with its value-layer function |
| Engine.Chip8.SkipOp | src/chip8.rs:177-213 | 3XNN, 4XNN, 5XY0 and 9XY0 never fault, and they match the value layer |
| Engine.Chip8.CallOp | src/chip8.rs:169-175 | 2NNN: `stack[sp]` is bounds-checked, then PC is pushed and PC set to NNN |
| Engine.Chip8.SkipKeyOp | src/chip8.rs:415-436 | EX9E and EXA1: `key[VX]` is bounds-checked, then the arm skips on a down or up key |
| Engine.Chip8.ExecLoadOrDraw | src/chip8.rs:215-230 | 6XNN and 7XNN, then ANNN, CXNN with the given random byte, and DXYN (src/chip8.rs:361-409), each agreeing with its value-layer function |
| Engine.Chip8.DrawOp | src/chip8.rs:383-409 | DXYN is the drawing loops followed by the draw semaphore and PC + 2 |
| Engine.Chip8.DrawRowsOp | src/chip8.rs:393-405 | the row loop leaves the framebuffer and VF that `DrawRows` computes, or reports its fault |
| Engine.Chip8.DrawRowOp | src/chip8.rs:395-404 | one row: the i16 address, the memory bounds check, and the column loop as `DrawRow` computes it |
| Engine.Chip8.GetGfx | src/chip8.rs:560-562 | the framebuffer is returned and nothing changes |
| Engine.Chip8.UpdateKeystate | src/chip8.rs:564-566 | the key array becomes the given one; nothing else changes |
| Engine.Chip8.SetRegisterToKeypress | src/chip8.rs:568-570 | it succeeds exactly when the index names a register, and then only that register changes |
| Engine.Chip8.CheckDrawSema | src/chip8.rs:572-578 | it returns the old draw flag and leaves it false; nothing else changes |
| Engine.Chip8.CheckKeySema | src/chip8.rs:580-586 | it returns the old key flag and leaves it false; nothing else changes |
| Properties.InitializedLayout | src/chip8.rs:55-90 | after `initialize`: PC 0x200, SP and I 0; the font is at 80..160 and every other memory byte is 0; gfx, stack, registers and keys are 0; the timers and semaphores are untouched |
| Properties.LoadAfterInitialize | src/chip8.rs:114-116 | a ROM that fits is copied to 0x200 without disturbing the font, and the first fetch reads its first two bytes |
| Properties.FontInMemory | src/chip8.rs:88-90 | the initialized memory holds CHIP8_FONTSET at 80 |
| Properties.FontSlice | src/chip8.rs:88-90 | any stretch of the font reads the same in initialized memory |
| Properties.FontCharGlyph | src/chip8.rs:499-506 | FX29 succeeds exactly for VX < 36; for a hex digit, I points at that digit's 5-byte glyph |
| Properties.AddImmWraps | src/chip8.rs:223-230 | 7XNN adds modulo 256 without touching VF or any other register (0x01 + 0xFF gives 0x00) |
| Properties.AddRegCarry | src/chip8.rs:271-287 | 8XY4 with X, Y ≠ F: VF * 256 + VX is the true sum, other registers are kept and PC advances by 2 |
| Properties.AddRegIntoFlag | src/chip8.rs:271-287 | 8XY4 with X = F: the sum of VY and the new flag overwrites the flag |
| Properties.AddRegFromFlag | src/chip8.rs:271-287 | 8XY4 with Y = F: VF becomes the carry and VX the low byte of VX + carry; with X = F too, VF becomes twice the carry; nothing else but PC (+ 2) changes |
| Properties.SubRegAdds | src/chip8.rs:289-305 | 8XY5 with X, Y ≠ F (X = Y allowed): VF is 1 exactly when VX ≥ VY, yet VX receives VX + VY modulo 256 (5 and 3 give 8) |
| Properties.SubRegWithFlag | src/chip8.rs:289-305 | 8XY5 with X or Y = F: the flag of VX ≥ VY is written, then the sum taken with that flag; 8FF5 leaves VF = 2; nothing else but PC (+ 2) changes |
| Properties.SubNBorrow | src/chip8.rs:316-332 | 8XY7 with X, Y ≠ F: VF is the no-borrow bit, and VY = VX' + VX - 256 * (1 - VF) |
| Properties.SubNWithFlag | src/chip8.rs:316-332 | 8XY7 with X or Y = F: the flag of VY ≥ VX is written, then the difference taken with that flag; 8FF7 leaves VF = 0; nothing else but PC (+ 2) changes |
| Properties.ShiftRightBit | src/chip8.rs:307-314 | 8XY6 with X ≠ F: VF is the bit shifted out and 2 * VX' + VF is the old VX (0x81 gives 0x40, VF 1) |
| Properties.ShiftRightIntoFlag | src/chip8.rs:307-314 | 8FF6 leaves VF = 0, and nothing else but PC (+ 2) changes |
| Properties.ShiftLeftBit | src/chip8.rs:334-341 | 8XYE with X ≠ F: VF * 256 + VX' is twice the old VX (0x81 gives 0x02, VF 1) |
| Properties.ShiftLeftIntoFlag | src/chip8.rs:334-341 | 8FFE leaves VF = 2 * (old VF / 128), that is 0 or 2, and nothing else but PC (+ 2) changes |
| Properties.AddIndexOverflow | src/chip8.rs:482-497 | FX1E with X ≠ F: VF is 1 exactly when I + VX exceeds 0x7FFF, and I then holds the sum minus 2^16 * VF |
| Properties.AddIndexIntoFlag | src/chip8.rs:482-497 | FX1E with X = F: VF becomes the overflow flag of I + VF, and I becomes I + that flag, wrapped in i16 (0x7FFF goes to -0x8000); nothing else but PC (+ 2) changes |
| Properties.BcdDigits | src/chip8.rs:508-517 | FX33 succeeds exactly when I..I+2 are in memory; it writes three decimal digits that spell VX, and leaves the rest of memory unchanged |
| Properties.StoreRegsCopies | src/chip8.rs:519-528 | FX55 succeeds exactly when I..I+X are in memory, and reports the faulting index otherwise; memory[I + k] = Vk for k ≤ X, and all else but PC is kept |
| Properties.LoadRegsCopies | src/chip8.rs:530-539 | FX65 succeeds exactly when I..I+X are in memory, and reports the faulting index otherwise; Vk = memory[I + k] for k ≤ X, and all else but PC is kept |
| Properties.StoreThenLoad | src/chip8.rs:519-539 | FX55 then FX65 gives back the registers |
| Properties.LoadThenStore | src/chip8.rs:519-539 | FX65 then FX55 gives back memory |
| Properties.CallThenReturn | src/chip8.rs:148-175 | 2NNN then 00EE faults only when the stack is full; otherwise it comes back to the call's address + 2 with SP restored |
| Properties.ReturnUnderflow | src/chip8.rs:148-153 | 00EE with an empty stack faults |
| Properties.SkipImmComplement | src/chip8.rs:177-201 | 3XNN skips by 4 exactly when VX = NN; 4XNN with the same operands does the opposite; neither changes anything but PC |
| Properties.SkipRegComplement | src/chip8.rs:203-213 | 5XY0 skips exactly when VX = VY; 9XY0 does the opposite (src/chip8.rs:349-359); neither changes anything but PC |
| Properties.SkipKeyComplement | src/chip8.rs:415-436 | EX9E and EXA1 both fault exactly when VX ≥ 16; otherwise exactly one of them skips, EX9E when key VX is down |
| Properties.StepRuns | src/chip8.rs:124-558 | with the encoding of an instruction at PC, a cycle runs that instruction's arm, then ticks |
| Properties.CallReturnCycles | src/chip8.rs:148-175 | two cycles over a 2NNN and a 00EE at its target come back to PC + 2 with SP restored |
| Properties.TicksSaturate | src/chip8.rs:552-557 | after k ticks each timer is max(t - k, 0), and nothing else changes |
| Drawing.RowFaultPersists | src/chip8.rs:394-405 | once a row faults, the whole draw reports that fault |
| Drawing.ColumnFaultPersists | src/chip8.rs:396-404 | once a pixel faults, the whole row reports that fault |
| Drawing.FlipAtUnion | src/chip8.rs:402 | flipping two disjoint cell sets in turn flips their union |
| Drawing.FlipAtTwice | src/chip8.rs:402 | flipping the same cells twice restores the framebuffer |
| Drawing.ColumnsEffect | src/chip8.rs:396-404 | with X, Y ≠ F, the pixels of one row fault exactly when a set bit is off screen; otherwise they flip exactly the covered cells, and VF records whether one of them was lit |
| Drawing.RowEffect | src/chip8.rs:395-404 | one row faults when its address is outside memory, and otherwise acts as its pixels do |
| Drawing.RowsEffect | src/chip8.rs:393-405 | with X, Y ≠ F, the N rows fault exactly when the sprite does not fit; otherwise they XOR the covered cells, and VF is 1 exactly when one of them was lit |
| Drawing.FitsOnScreen | src/chip8.rs:397 | a sprite that fits covers only screen cells |
| Drawing.CollidesFlipped | src/chip8.rs:399-402 | after a flip, a covered cell is lit exactly when one was clear before |
| Drawing.DrawXor | src/chip8.rs:383-409 | DXYN with X, Y ≠ F: it succeeds exactly when the sprite fits; gfx becomes gfx XOR sprite, VF is the collision bit, the draw semaphore is raised, PC + 2, and nothing else changes |
| Drawing.DrawTwice | src/chip8.rs:383-409 | drawing the same sprite twice cannot fault the second time; it restores the framebuffer, and the second VF says whether a covered cell was clear before the first |
| Drawing.DrawOnBlank | src/chip8.rs:383-409 | on a blank screen the first draw has VF 0, and the second restores the blank screen with VF 1 exactly when the sprite has a set pixel |
| Frames.ExecuteFrame | src/chip8.rs:136-550 | every arm that succeeds changes only the fields and registers listed for its instruction, and the sequential ones advance PC by exactly 2 |
| Frames.RowsBinary | src/chip8.rs:393-405 | a draw keeps a 0/1 framebuffer 0/1, whichever registers X and Y are |
| Frames.InitialSound | src/chip8.rs:34-94 | `new` and `initialize` give a sound machine: SP ≤ 16 and a 0/1 framebuffer |
| Frames.ExecuteKeepsSound | src/chip8.rs:136-550 | every successful arm keeps the machine sound |
| Frames.StepKeepsSound | src/chip8.rs:124-558 | every successful cycle keeps the machine sound, so SP never passes the stack |

## Left out

- `src/app.rs` and `src/main.rs` are not part of this model. They hold the SDL window, the
  rendering, the key polling and the process entry.
- Reading the ROM file in `load` (src/chip8.rs:103-112), with its panic on a read error,
  is replaced by a ROM parameter.
- `rand::thread_rng` is replaced by a byte parameter of `EmulateCycle`.
- The `println!` output is left out.
- The unused `KEY_MAPPING` table is left out.
- Release builds are not modelled. The model follows a debug build, where an integer
  overflow panics; a release build wraps instead. For example, FX29 with VX ≥ 36 would set
  I to (5 * VX + 80) mod 256, and 00EE with SP 0 would wrap SP to 255 and then fault on
  `stack[255]`.
- Engine.Chip8.EmulateCycle: after a fault it promises only the fault. It does not promise
  the partly updated state, because the panic ends the program.
- Drawing.DrawXor: it and the other XOR lemmas assume X and Y are not F. When X or Y is
  F, the source reads the changing VF as a coordinate. That case is modelled exactly in
  `Semantics.DrawRows`, and `Frames.RowsBinary` covers it, but it has no XOR form.
- Drawing.DrawOnBlank: "a second draw reports VF = 1 when the sprite is non-empty" holds
  only from a blank screen. On other screens `Drawing.DrawTwice` states what the second
  VF is.
- Engine.Chip8.DrawRowsOp: it takes the row width as a parameter, which `DrawOp` sets to
  8, the `0..8` of src/chip8.rs:396.
