# yarchi CHIP-8 core in Dafny

A model of the virtual-machine core of yarchi, a CHIP-8 interpreter written in
Rust with a CHIP-48 compatibility switch. The model covers these pieces:

- **instruction decoder**: `Instruction`, bit fields of a 16-bit word;
- **program counter**: set, +2, and conditional ±2;
- **machine state**: memory, registers V0..VF and I, stack, display, timers and keypad input;
- **machine helpers**: construction with the font loaded, program loading, fetch,
  register writes, the refresh latch, and the sprite XOR draw with its collision flag;
- **opcode table**: the sixteen-entry `MAIN_TABLE` and every handler, with the nested
  sub-code matches of families 0, 8, E and F;
- **configuration**: the font, instruction pacing, and the screen-size and frequency mappings;
- **host loop**: the pure logic of timer ticks, the keyboard-to-keypad map, and the debug
  pause/single-step switches;
- **command line**: the two argument validators.

The machine is an immutable datatype. Each mutating Rust method becomes a function
that returns the new machine. Rust `u8`/`u16` values are integer subset types.
Wrap-around is written out with `%`. Bitwise `|`, `&` and `^`, and the shifts, are
defined bit by bit (`Bits.Bit`). Index panics and integer-overflow panics in the
Rust code become `requires` clauses. The random byte of Cxkk is a parameter. So are
the pressed scancodes, the key-up events and the elapsed loop time.

Modules, one file each:

- `Bits` (bits.dfy): fixed-width integers and bit operations.
- `Instructions` (instruction.dfy): the decoder.
- `ProgramCounters` (program_counter.dfy): the program counter.
- `Display` (display.dfy): the 64 x 32 screen.
  - It also holds the sprite-XOR specification, which is a set of hit cells.
- `Config` (config.dfy): the font and the configuration mappings.
- `Chip8` (chip8.dfy): the machine and its helpers.
  - `DrawLoop` is the draw written as the source's nested loop. It is proved equal to `Draw`.
- `Operations` (operations.dfy): the table and the handlers.
- `Decimal` (decimal.dfy): Rust's unsigned `parse`. It accepts decimal digits with an
  optional leading `+`, and its errors are `Empty`, `InvalidDigit` and `PosOverflow`.
- `Cli` (cli.dfy): the validators.
- `Interpreter` (interpreter.dfy): the host-loop logic.
- `Scenarios` (scenarios.dfy): the repository's own unit-test examples, plus a short
  program run instruction by instruction.

Behaviours of the code worth knowing, which the model keeps:

- **Draw clipping.** Unlike common CHIP-8 references, the draw loop
  (`src/interpreter/chip8.rs:167-172`) does not cut a sprite row off at the right edge;
  it only stops at cell index 2048. Bits past column 63 therefore land at the start of
  the next display row. `Display.Hit` states exactly this.
- **Flag order.** 8xy4, 8xy5, 8xy7, 8xy6 and 8xyE write VF first and Vx second
  (`src/interpreter/chip8/operations.rs:29-58`). So for x = F, VF ends up holding the
  result, not the flag.
- **Shift flags.** The shift flags are constant: 8xy6 always sets VF to 0, and
  8xyE always sets VF to 1. `overflowing_shr(1)` and `overflowing_shl(1)` on `u8` never
  report overflow, and 8xyE stores the negated flag.
- **Counter bounds.** The program counter uses `+=` and `-=` on `u16`, which panic on
  overflow. Those bounds are preconditions here.

## Model

| member | source | states |
|---|---|---|
| `Bits.ByteOp` | src/interpreter/chip8/operations.rs:26-28 | bitwise OR, AND and XOR on `u8`: every bit of the result is the connective applied to the operands' bits, and the result fits a byte |
| `Bits.ShiftLeftBits` | src/interpreter/chip8.rs:184 | `sprite_byte <<= 1` moves bit j to bit j + 1 below bit 8 and clears bit 0 |
| `Instructions.NewFromBytes` | src/interpreter/chip8/instruction.rs:5-7 | the first byte is the high byte of the word (first nibble and x), and `kk` is the second byte |
| `Instructions.Instruction.ToRawInstr` | src/interpreter/chip8/instruction.rs:9-11 | the raw word wraps back into the same instruction, so nothing is lost |
| `Instructions.Instruction.FirstNibble` | src/interpreter/chip8/instruction.rs:13-15 | the family f is the top nibble: f·0x1000 ≤ raw < (f + 1)·0x1000 |
| `Instructions.Instruction.LastNibble` | src/interpreter/chip8/instruction.rs:17-19 | a value below 16 congruent to raw modulo 16 |
| `Instructions.Instruction.X` | src/interpreter/chip8/instruction.rs:21-23 | x is the top nibble of the 12-bit address field: x·0x100 ≤ raw mod 0x1000 < (x + 1)·0x100 |
| `Instructions.Instruction.Y` | src/interpreter/chip8/instruction.rs:25-30 | y is the top nibble of the immediate byte: y·0x10 ≤ raw mod 0x100 < (y + 1)·0x10 |
| `Instructions.Instruction.XY` | src/interpreter/chip8/instruction.rs:25-30 | the first index of `x_y` is `x()` and the second is bits 4..7 |
| `Instructions.Instruction.Nnn` | src/interpreter/chip8/instruction.rs:32-34 | the address field is below 0x1000 |
| `Instructions.Instruction.Kk` | src/interpreter/chip8/instruction.rs:36-38 | a byte congruent to raw modulo 256 |
| `Instructions.Reassemble` | src/interpreter/chip8/instruction.rs:13-38 | raw = first·0x1000 + x·0x100 + y·0x10 + last = first·0x1000 + nnn = high byte·0x100 + kk; nnn = x·0x100 + kk; kk = y·0x10 + last |
| `Instructions.DecodeFromNibbles` | src/interpreter/chip8/instruction.rs:13-30 | a word built from four nibbles decodes back to those four nibbles |
| `Instructions.EncodeDecodedNibbles` | src/interpreter/chip8/instruction.rs:13-30 | rebuilding a word from its decoded nibbles gives the same instruction, so decoding loses nothing |
| `Instructions.DecodesExample` | src/interpreter/chip8/instruction.rs:45-61 | bytes 0x12, 0x34 give raw 0x1234, first 1, last 4, x 2, (x, y) = (2, 3), nnn 0x234, kk 0x34 |
| `ProgramCounters.ProgramCounter.SetTo` | src/interpreter/chip8/program_counter.rs:9-15 | after `set_to(v)`, `value()` is v |
| `ProgramCounters.ProgramCounter.Increment` | src/interpreter/chip8/program_counter.rs:17-19 | adds exactly 2; needs value ≤ 0xFFFD because `u16` `+=` panics on overflow |
| `ProgramCounters.ProgramCounter.IncrementIf` | src/interpreter/chip8/program_counter.rs:21-25 | with a false condition nothing changes; with a true one it is `increment` |
| `ProgramCounters.ProgramCounter.DecrementIf` | src/interpreter/chip8/program_counter.rs:27-31 | with a false condition nothing changes; with a true one it subtracts exactly 2, needing value ≥ 2 |
| `ProgramCounters.NewWithValue` | src/interpreter/chip8/program_counter.rs:5-7 | the new counter reports the given value |
| `ProgramCounters.DecrementUndoesIncrement` | src/interpreter/chip8/program_counter.rs:17-31 | a step forward followed by a step back (and the other way round) returns to the same counter |
| `ProgramCounters.CounterWalkExample` | src/interpreter/chip8/program_counter.rs:38-55 | the walk 10, set 11, 13, 15, 15: no evenness invariant is kept |
| `Display.NewScreen` | src/interpreter/chip8.rs:39-44 | every cell is off and no refresh is pending |
| `Display.Clear` | src/interpreter/chip8.rs:46-48 | every cell is off; the refresh flag is untouched |
| `Display.ShouldRefresh` | src/interpreter/chip8.rs:50-57 | returns the old refresh flag and leaves it false, the pixels unchanged |
| `Display.ShouldRefreshConsumes` | src/interpreter/chip8.rs:50-57 | a second query right after the first reports false and changes nothing |
| `Display.CoveredIffHit` | src/interpreter/chip8.rs:162-186 | the cells the loop order visits (row by row, most significant bit first) are exactly the cells a set sprite bit targets |
| `Display.XorSprite` | src/interpreter/chip8.rs:162-186 | each cell flips iff a set sprite bit targets it (index (y + r)·64 + x + b below 2048, spilling into the next row past column 63); the collision result is true iff some targeted cell was lit |
| `Display.XorSpriteTwice` | src/interpreter/chip8.rs:176-183 | drawing the same sprite twice restores the pixels, and the second draw collides exactly when the first one lit some cell |
| `Display.XorSpriteOnBlank` | src/interpreter/chip8.rs:176-183 | on a blank screen the first draw never collides; a second draw erases it, colliding iff the sprite targets some cell |
| `Config.Glyph` | src/interpreter/config.rs:14-32 | each glyph has five rows |
| `Config.Font` | src/interpreter/config.rs:14-32 | `FONT` has 16 × 5 = 80 bytes and bytes 5d .. 5d + 4 are the rows of the glyph for digit d |
| `Config.FontShape` | src/interpreter/config.rs:15-32 | every font byte has a zero low nibble, so every glyph is at most four pixels wide |
| `Config.InstructionsPerCycle` | src/interpreter/config.rs:61-64 | (speed / 60) / 2 in integer division: the largest r with 120·r ≤ speed |
| `Config.InstructionsPerCycleRange` | src/interpreter/config.rs:9 | for any frequency in 200..1000 the count is 1..8, and the default 500 gives 4 |
| `Config.ScreenSizeCoeff` | src/interpreter/config.rs:80-89 | "medium" gives 12, "large" gives 16, anything else or nothing gives 10, each in both directions |
| `Config.EmuFrequency` | src/interpreter/config.rs:91-96 | no argument gives 500; an argument gives its `u32` value (an unparsable one panics, so it is required to parse) |
| `Chip8.WriteBytes` | src/interpreter/chip8.rs:81-84 | the bytes land at addr + k, every other cell unchanged |
| `Chip8.LoadFont` | src/interpreter/chip8.rs:89-98 | memory 0x50 .. 0x9F holds `FONT`, every other cell unchanged |
| `Chip8.PowerOn` | src/interpreter/chip8.rs:61-73 | pc 0x200, all registers 0, empty stack and input, timers 0, display off and no refresh, memory all zero, the given mode |
| `Chip8.New` | src/interpreter/chip8.rs:61-75 | the power-on state with the font at 0x50 .. 0x9F and every other cell 0 |
| `Chip8.LoadProgram` | src/interpreter/chip8.rs:77-87 | program byte k is at 0x200 + k, every other cell and every other field unchanged; needs at most 0xE00 bytes |
| `Chip8.Fetch` | src/interpreter/chip8.rs:113-121 | the word's high byte is memory[pc] and kk is memory[pc + 1]; pc advances by exactly 2 and nothing else changes; needs pc + 1 < 4096 |
| `Chip8.Narrow` | src/interpreter/chip8.rs:126-129 | `to_u8().unwrap_or_default()` and `to_u16()...`: a value that fits is kept, any other becomes 0 |
| `Chip8.SetRegTo` | src/interpreter/chip8.rs:123-132 | the named register holds the value, or 0 when it does not fit; nothing else changes |
| `Chip8.AddToReg` | src/interpreter/chip8.rs:134-143 | the named register wraps modulo 256 (V) or 65536 (I); nothing else changes |
| `Chip8.SetRegisterFlagIfElse0` | src/interpreter/chip8.rs:145-151 | VF is 1 iff the condition holds and 0 iff it does not; nothing else changes |
| `Chip8.AddToRegUndo` | src/interpreter/chip8.rs:134-143 | adding val and then capacity − val restores the machine |
| `Chip8.SpriteRows` | src/interpreter/chip8.rs:158-163 | the n sprite bytes are memory[I + r] for r < n |
| `Chip8.Draw` | src/interpreter/chip8.rs:153-191 | cells flip exactly where `Display.Hit` says; VF is 1 iff a lit cell was hit and 0 otherwise; V0..VE and everything but the pixels unchanged |
| `Chip8.Plot` | src/interpreter/chip8.rs:176-183 | a set bit flips the cell at `current_pos`, and VF becomes 1 when that cell was lit; a clear bit changes nothing; no other cell or register changes |
| `Chip8.DrawBit` | src/interpreter/chip8.rs:167-185 | one pass of the inner loop plots one sprite bit and keeps the shifted byte in step with the bit index |
| `Chip8.DrawSpriteRow` | src/interpreter/chip8.rs:162-190 | one pass of the outer loop, including the early break at cell 2048, draws one sprite row; when the display has a next row (y + 1 < 32) the x cursor comes back as x + 8, since an early break leaves it short |
| `Chip8.DrawLoop` | src/interpreter/chip8.rs:153-191 | the nested loop as written, with the `checked_sub(8)` reset, computes exactly `Draw` |
| `Operations.MainTable` | src/interpreter/chip8/operations.rs:6-9 | the handler at index f serves first nibble f |
| `Operations.MainTableBijective` | src/interpreter/chip8/operations.rs:6-9 | every first nibble has exactly one handler and every handler exactly one first nibble |
| `Operations.Pop` | src/interpreter/chip8/operations.rs:17 | pops the top of a non-empty stack; an empty stack yields 0 (`unwrap_or_default`) |
| `Operations.OpTable0` | src/interpreter/chip8/operations.rs:11-20 | 00E0 clears every cell and sets refresh; 00EE pops into pc, or sets pc 0 on an empty stack; other kk change nothing |
| `Operations.Op1nnn` | src/interpreter/chip8/operations.rs:115-117 | pc := nnn, nothing else changes |
| `Operations.Op2nnn` | src/interpreter/chip8/operations.rs:119-122 | pushes the current pc and jumps to nnn |
| `Operations.CallThenReturn` | src/interpreter/chip8/operations.rs:119-122 | 2nnn followed by 00EE restores the machine |
| `Operations.Op3xkk` | src/interpreter/chip8/operations.rs:124-126 | skips (pc + 2) iff Vx = kk, otherwise pc stays |
| `Operations.Op4xkk` | src/interpreter/chip8/operations.rs:128-130 | skips iff Vx ≠ kk |
| `Operations.Op5xy0` | src/interpreter/chip8/operations.rs:132-135 | skips iff Vx = Vy, whatever the last nibble |
| `Operations.Op9xy0` | src/interpreter/chip8/operations.rs:143-146 | skips iff Vx ≠ Vy, whatever the last nibble |
| `Operations.SkipPairsComplementary` | src/interpreter/chip8/operations.rs:124-146 | of 3xkk/4xkk, and of 5xy0/9xy0, exactly one skips |
| `Operations.OpBnnn` | src/interpreter/chip8/operations.rs:151-158 | pc := nnn + V0, or in CHIP-48 mode kk + Vx |
| `Operations.OffsetJumpMatchesJump` | src/interpreter/chip8/operations.rs:151-158 | outside CHIP-48 mode with V0 = 0, Bnnn is exactly 1nnn; in CHIP-48 mode the target stays below 0x100 |
| `Operations.Op6xkk` | src/interpreter/chip8/operations.rs:137-139 | Vx := kk, nothing else changes |
| `Operations.Op7xkk` | src/interpreter/chip8/operations.rs:140-142 | Vx := Vx + kk mod 256 and nothing else changes, so VF is untouched unless x is F |
| `Operations.AddImmediateUndo` | src/interpreter/chip8/operations.rs:140-142 | 7xkk followed by 7xkk' on the same register with kk + kk' = 256 restores the machine |
| `Operations.OpAnnn` | src/interpreter/chip8/operations.rs:147-149 | I := nnn, nothing else changes |
| `Operations.OpCxkk` | src/interpreter/chip8/operations.rs:160-163 | Vx gets bit k iff both the random byte and kk have bit k |
| `Operations.CxkkMask` | src/interpreter/chip8/operations.rs:160-163 | the result has no bit outside kk; kk = 0 gives 0 and kk = 0xFF gives the random byte itself |
| `Operations.OverflowingAdd` | src/interpreter/chip8/operations.rs:30 | `overflowing_add`: the sum mod 256, overflow iff the sum exceeds 0xFF |
| `Operations.OverflowingSub` | src/interpreter/chip8/operations.rs:34-38 | `overflowing_sub`: the difference mod 256, overflow iff a < b |
| `Operations.OverflowingShr1` | src/interpreter/chip8/operations.rs:43 | `overflowing_shr(1)`: bit k of the result is bit k + 1 of the operand, and overflow is always false |
| `Operations.OverflowingShl1` | src/interpreter/chip8/operations.rs:56 | `overflowing_shl(1)`: bit k of the result is bit k − 1 below bit 8, bit 0 clear, overflow always false |
| `Operations.Op8xy0` | src/interpreter/chip8/operations.rs:25 | Vx := Vy, nothing else changes |
| `Operations.Op8xyLogic` | src/interpreter/chip8/operations.rs:26-28 | Vx := Vx OR/AND/XOR Vy bit by bit and nothing else changes, so VF is untouched unless x is F |
| `Operations.XorTwice` | src/interpreter/chip8/operations.rs:28 | 8xy3 applied twice with x ≠ y restores the machine |
| `Operations.Op8xy4` | src/interpreter/chip8/operations.rs:29-33 | Vx := Vx + Vy mod 256; for x ≠ F, VF is the carry; only Vx and VF change |
| `Operations.Op8xy5` | src/interpreter/chip8/operations.rs:34-38 | Vx := Vx − Vy mod 256; for x ≠ F, VF is 1 iff Vx ≥ Vy |
| `Operations.Op8xy7` | src/interpreter/chip8/operations.rs:47-51 | Vx := Vy − Vx mod 256; for x ≠ F, VF is 1 iff Vy ≥ Vx |
| `Operations.Op8xy6` | src/interpreter/chip8/operations.rs:39-46 | Vx := source / 2, where the source is Vy (copied first) or, in CHIP-48 mode, Vx; for x ≠ F, VF is always 0 |
| `Operations.Op8xyE` | src/interpreter/chip8/operations.rs:52-59 | Vx := source · 2 mod 256; for x ≠ F, VF is always 1 |
| `Operations.FlagWrittenBeforeResult` | src/interpreter/chip8/operations.rs:29-59 | with x = F, 8xy4, 8xy5, 8xy7, 8xy6 and 8xyE leave the result in VF, because the flag is written first |
| `Operations.AddThenSubtract` | src/interpreter/chip8/operations.rs:29-38 | 8xy4 then 8xy5 restores Vx |
| `Operations.ShiftRightThenLeft` | src/interpreter/chip8/operations.rs:39-59 | in CHIP-48 mode 8xy6 then 8xyE clears just the lowest bit of Vx |
| `Operations.OpTable8` | src/interpreter/chip8/operations.rs:22-62 | only Vx and VF ever change, and an unknown last nibble changes nothing |
| `Operations.OpTableE` | src/interpreter/chip8/operations.rs:64-70 | Ex9E skips iff the full byte Vx is in the input; ExA1 skips iff it is not; other kk change nothing |
| `Operations.OpFx07` | src/interpreter/chip8/operations.rs:74 | Vx := delay timer, nothing else changes |
| `Operations.OpFx0A` | src/interpreter/chip8/operations.rs:75-79 | no key: pc steps back 2 and Vx := 0; a key: Vx := the first key and pc stays |
| `Operations.OpFx15` | src/interpreter/chip8/operations.rs:80 | delay timer := Vx, nothing else changes |
| `Operations.OpFx18` | src/interpreter/chip8/operations.rs:81 | sound timer := Vx, nothing else changes |
| `Operations.DelayTimerRoundTrip` | src/interpreter/chip8/operations.rs:74-80 | Fx15 then Fx07 reads back what was stored |
| `Operations.OpFx1E` | src/interpreter/chip8/operations.rs:82-88 | I := I + Vx mod 65536; VF := 1 only if the new I exceeds 0x1000, otherwise VF is unchanged |
| `Operations.OpFx29` | src/interpreter/chip8/operations.rs:89-94 | I := 0x50 + 5·(Vx mod 16), nothing else changes |
| `Operations.FontAddressHoldsGlyph` | src/interpreter/chip8/operations.rs:89-94 | with the font loaded, the five bytes at the new I are the glyph of Vx's low nibble |
| `Operations.DecimalDigits` | src/interpreter/chip8/operations.rs:97-99 | three digits below 10 whose decimal value is the byte |
| `Operations.OpFx33` | src/interpreter/chip8/operations.rs:95-100 | memory I..I+2 hold the hundreds, tens and units of Vx, every other cell unchanged |
| `Operations.OpFx55` | src/interpreter/chip8/operations.rs:101-105 | memory[I + n] := Vn for n ≤ x, every other cell and I unchanged |
| `Operations.LoadRegisters` | src/interpreter/chip8/operations.rs:107-109 | after the first count passes of the loop, Vn = memory[I + n] for n < count and the rest untouched |
| `Operations.OpFx65` | src/interpreter/chip8/operations.rs:106-110 | Vn := memory[I + n] for n ≤ x, the other registers unchanged |
| `Operations.StoreThenLoad` | src/interpreter/chip8/operations.rs:101-110 | Fx65 right after Fx55 changes nothing |
| `Operations.OpTableF` | src/interpreter/chip8/operations.rs:71-113 | the stack, display, input and mode never change, and an unknown kk changes nothing |
| `Operations.OpDxyn` | src/interpreter/chip8/operations.rs:165-168 | the draw's effect, plus the refresh flag set |
| `Operations.DrawTwiceRestores` | src/interpreter/chip8.rs:176-183 | Dxyn twice with VF as neither coordinate restores the display |
| `Operations.DecodeAndExecute` | src/interpreter/chip8.rs:109-111 | no instruction changes mode or input; only families 0 and 2 touch the stack, only 0 and D the display, only F memory and timers |
| `Operations.ExecuteCounter` | src/interpreter/chip8/operations.rs:6-113 | after `fetch`, a handler leaves pc alone for families 6, 7, 8, A, C and D, adds 2 exactly when the skip condition of 3, 4, 5, 9 or E holds, sets it to nnn for 1 and 2 (2 also pushes the old pc), to nnn + V0 or kk + Vx for B, to the popped address for 00EE, and moves it back 2 for Fx0A with no key down |
| `Operations.Step` | src/interpreter/chip8.rs:100-111 | fetch then execute keeps mode and input; pc ends at pc + 2 for the straight-line families, pc + 4 exactly when a skip is taken (pc + 2 otherwise), at the jump or call target (a call pushes pc + 2), at the popped address for 00EE, and back on pc for Fx0A with no key down; only an F instruction touches memory or timers |
| `Operations.Execute` | src/interpreter/chip8.rs:109-111 | running any table handler keeps mode and input; only the 0 and 2 handlers touch the stack, only 0 and D the display, only F memory and timers |
| `Operations.UnknownSubcodesIgnored` | src/interpreter/chip8/operations.rs:11-113 | an unknown sub-code in families 0, 8, E or F leaves the machine as it was |
| `Operations.KeyWaitSpins` | src/interpreter/chip8/operations.rs:75-79 | with no key down, a step on Fx0A leaves pc on the same instruction |
| `Scenarios.SetRegisterScenario` | src/interpreter/chip8.rs:225-233 | 0x6542 then 0x8650 leave V5 = V6 = 0x42 |
| `Scenarios.PressedKeyScenario` | src/interpreter/chip8.rs:236-245 | V5 := 0x0A, key 0x0A pressed, then E59E moves pc from 0x200 to 0x202 |
| `Scenarios.DecimalDigitsScenario` | src/interpreter/chip8.rs:248-260 | 617B, A666, F133 write 1, 2, 3 at 0x666..0x668 |
| `Scenarios.DrawScenario` | src/interpreter/chip8.rs:263-284 | 0b01010101 drawn at (1, 1) lights 66, 68, 70, 72 and leaves 65, 67, 69, 71 off |
| `Scenarios.ProgramScenario` | src/interpreter/chip8.rs:100-121 | four fetch-execute steps of 6005 7003 3008 6063 give V0 = 5, 8, 8 (3008 skips 6063) and pc 0x20A |
| `Scenarios.LoadedProgramMeetsScenario` | src/interpreter/chip8.rs:77-87 | loading the program at 0x200 gives the layout the program scenario starts from |
| `Scenarios.PowerOnMeetsScenarios` | src/interpreter/chip8.rs:61-75 | a new machine has pc 0x200, a blank display and zero memory just past the program |
| `Interpreter.Tick` | src/interpreter.rs:175-177 | a nonzero timer drops by 1, zero stays 0 |
| `Interpreter.HandleTimers` | src/interpreter.rs:174-187 | both timers tick, nothing else changes, and the beep plays iff the sound timer was nonzero |
| `Interpreter.TicksCountDown` | src/interpreter.rs:174-187 | after n ticks each timer is max(t − n, 0) and nothing else changed |
| `Interpreter.SoundLastsItsCount` | src/interpreter.rs:180-186 | the beep sounds on exactly the first t ticks after the sound timer is loaded with t |
| `Interpreter.KeyOf` | src/interpreter.rs:193-210 | exactly the sixteen keypad keys have a value; P, End, PageDown and every other scancode add nothing to the input |
| `Interpreter.ScancodeOf` | src/interpreter.rs:193-209 | each keypad value has a key that maps to it |
| `Interpreter.KeyMapBijective` | src/interpreter.rs:193-209 | the 16 mapped scancodes and the 16 keypad values are in one-to-one correspondence |
| `Interpreter.PressedKeys` | src/interpreter.rs:190-212 | every entry is below 0x10, and a value is present iff a pressed scancode maps to it |
| `Interpreter.RegisterPressedKeys` | src/interpreter.rs:189-213 | the input is rebuilt from scratch from the held keys, nothing else changes |
| `Interpreter.HeldKeyIsSeen` | src/interpreter.rs:189-213 | holding a value's key puts that value in the input; nothing held gives empty input |
| `Interpreter.IsPaused` | src/interpreter.rs:245-247 | paused only in debug mode, never while running or with a single step pending, and always when stopped in debug mode with no step pending |
| `Interpreter.ToggleState` | src/interpreter.rs:249-251 | `running` flips, `step_exec` stays |
| `Interpreter.ResetExecStep` | src/interpreter.rs:253-257 | `step_exec` ends false, `running` stays |
| `Interpreter.HandleDebugInput` | src/interpreter.rs:215-237 | End toggles; PageDown sets `step_exec` only when stopped; P and other keys change nothing |
| `Interpreter.OnKeyUp` | src/interpreter.rs:77-81 | outside debug mode a key-up changes nothing; in debug mode it is `handle_debug_input`: End flips `running`, PageDown requests a step only while stopped |
| `Interpreter.ToggleTwice` | src/interpreter.rs:245-251 | End twice restores the state; outside debug mode, and at start, the loop is never paused |
| `Interpreter.SingleStep` | src/interpreter.rs:86-99 | while stopped, PageDown unpauses exactly one iteration, whose final reset pauses again; while running PageDown does nothing |
| `Interpreter.SleepTimeAsWritten` | src/interpreter.rs:24 | `SLEEP_TIME` is 10000 µs, a 100 Hz period, not 60 Hz |
| `Interpreter.SleepTimeCorrectedIsPeriod` | src/interpreter.rs:22-24 | the 60 Hz period is 16666 µs, the longest whole-microsecond pause with 60 of them fitting into a second |
| `Interpreter.SleepFor` | src/interpreter.rs:239-243 | sleeps the rest of the period after the work, or 0 if the work overran it (`checked_sub` → 0) |
| `Decimal.Parse` | src/main.rs:108 | Rust's unsigned `parse`: empty input is `Empty`, a lone `+` is `InvalidDigit`, and any parsed value is at most the maximum |
| `Decimal.ScanMeaning` | src/main.rs:108 | the digit scan succeeds iff every character is a digit and the value fits, and then yields that value |
| `Decimal.ParseMeaning` | src/main.rs:108 | a string parses iff, after an optional `+`, it is a non-empty digit string whose value fits, and then yields that value |
| `Decimal.ParseToDecimal` | src/main.rs:108 | a number written in decimal parses back to itself |
| `Cli.Split` | src/main.rs:124 | `split(",")` yields one more part than there are commas, none containing a comma |
| `Cli.JoinSplit` | src/main.rs:124 | joining the parts with commas gives back the string |
| `Cli.SplitJoin` | src/main.rs:124 | splitting comma-free parts joined by commas gives back the parts |
| `Cli.IsValidEmuFrequency` | src/main.rs:107-121 | a parse failure is rejected with its error; a parsed value is accepted iff it is in 200..1000, otherwise the range error |
| `Cli.FrequencyAcceptedExactly` | src/main.rs:107-121 | accepted iff, after an optional `+`, the string is a non-empty digit string with value in 200..1000 |
| `Cli.FrequencyOfNumber` | src/main.rs:107-121 | a decimal number is accepted iff it is in 200..1000, and one above 65535 is a `PosOverflow` parse error |
| `Cli.ScanOverflowIsPosOverflow` | src/main.rs:108 | a digit string too large for the type fails with `PosOverflow` |
| `Cli.AcceptedFrequencyPacing` | src/main.rs:107-121 | an accepted frequency parses as `u32` to the same value and runs 1..8 instructions per loop iteration |
| `Cli.IsValidRgbColor` | src/main.rs:123-137 | not three parts: the format error; three parts: accepted iff the first parses as `u8`, else that part's parse error |
| `Cli.RgbSecondAndThirdUnchecked` | src/main.rs:129-134 | "1,x,999" is accepted as written, and the strict check rejects it with `InvalidDigit` |
| `Cli.CheckParts` | src/main.rs:129-134 | accepted iff every part parses as `u8`; a rejection is always an RGB parse error |
| `Cli.IsValidRgbColorStrict` | src/main.rs:123-137 | accepted iff there are three parts and every one parses as `u8` |
| `Cli.StrictAcceptsColours` | src/main.rs:123-137 | "R,G,B" with each component a byte in decimal is accepted |
| `Cli.StrictIsStricter` | src/main.rs:123-137 | the strict check accepts nothing the original rejects |

## Left out

- SDL video, audio and the event pump (`initiate_video`, `initiate_audio`, `refresh_screen`, the `Event` polling in `run`, the SDL setup in `main`). These are input/output; pressed scancodes and key-up events are parameters instead.
- `generate_sound`. It only fills an audio buffer; `HandleTimers` reports whether the beep plays.
- The real-time part of `handle_loop_sync` (`Instant`, `sleep`). `SleepFor` models its arithmetic, with the elapsed time as a parameter.
- The order of the steps inside `run` (events, pause check, timers, keys, instructions, refresh, reset, sleep) is not modelled as one function. Each step is.
- `std::fs::read` in `load_program_to_memory`, and its I/O error. `LoadProgram` takes the file's bytes.
- `thread_rng` in `op_cxkk`. The random byte is a parameter of `OpCxkk`, `DecodeAndExecute` and `Step`.
- `println!` output: `handle_unknown_instr`, the executed-instruction trace in `run_instruction`, the P key's state dump and the `Debug` formatter. Each changes no machine state, and the model treats each as no change.
- clap argument handling, `Config::from_args`, `set_color` with its `unwrap` panics, and the `Color` constants. These are library glue. The string-to-value mappings `ScreenSizeCoeff` and `EmuFrequency` are modelled.
- The wording of the validators' error messages. The model keeps which error occurs (`Cli.Rejection`, carrying the parse error kind), not the text.
- Index and overflow panics are preconditions, not behaviour. These are:
  - fetch at pc + 1 ≥ 4096;
  - a sprite read past memory;
  - Fx33, Fx55 and Fx65 past memory;
  - the ±2 of the program counter past the `u16` range;
  - a program longer than 0xE00 bytes.
- `OpBnnn`: the CHIP-48 sum `kk + Vx` is a `u8` addition. It panics on overflow in a debug build and wraps in a release build, so the model requires the sum to fit in a byte.
- `Config.EmuFrequency`: a frequency string that does not parse as `u32` makes the source panic, so it is a precondition here. The command-line validator only lets `u16` values in 200..1000 through, as `Cli.AcceptedFrequencyPacing` shows.
- `Interpreter.OnKeyUp` takes a scancode, not an `Option`. A key-up event without a scancode makes `scancode.unwrap()` at src/interpreter.rs:79 panic in debug mode; the model has no such event.
- `Decimal.Parse` models only the parts of Rust's integer parsing these validators reach. Those are ASCII decimal digits, an optional leading `+`, and the errors `Empty`, `InvalidDigit` and `PosOverflow`.

## Findings

| source | as written | input that shows it | evidently intended | confidence | as-written member | corrected member |
|---|---|---|---|---|---|---|
| src/interpreter.rs:24 | `SLEEP_TIME = (100 / MAIN_LOOP_FREQUENCY) * 10000`; the integer division 100 / 60 is 1, so the pause is 10000 µs | `MAIN_LOOP_FREQUENCY = 60`: the loop can run 100 times a second, so the timers tick at up to 100 Hz | a 60 Hz period, 1_000_000 / 60 = 16666 µs | not executed | `Interpreter.SleepTimeAsWritten` | `Interpreter.SleepTimeCorrectedIsPeriod` |
| src/main.rs:129-134 | the loop returns on the first part whatever its outcome, so only the red component is checked | "1,x,999" is accepted; `set_color` then panics on `rgb[1].parse::<u8>().unwrap()` | every one of the three parts must parse as `u8` | not executed | `Cli.RgbSecondAndThirdUnchecked` | `Cli.IsValidRgbColorStrict` |
