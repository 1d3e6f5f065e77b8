/** The CHIP-8 machine state and the helpers the opcode handlers build on:
    construction, program loading, fetch, register writes and the sprite draw.

    The machine is an immutable value; every mutating method of the source is a
    function returning the updated machine. Index and overflow panics of the
    source are preconditions. */
module Chip8 {
  import opened Bits
  import opened Instructions
  import opened ProgramCounters
  import opened Display
  import Config

  const MemorySize := 4096

  /** Programs are loaded, and execution starts, at 0x200. */
  const ProgramStart := 0x200

  /** The font is loaded at 0x050 .. 0x09F. */
  const FontStart := 0x050
  const FontEnd := 0x0A0

  /** VF, the flag register. */
  const FlagRegister: Nibble := 15

  /** `[u8; 4096]`. */
  type Memory = s: seq<Byte> | |s| == 4096 witness seq(4096, _ => 0)

  /** `[u8; 16]`, the registers V0 .. VF. */
  type Registers = s: seq<Byte> | |s| == 16 witness seq(16, _ => 0)

  /** A register the helpers write: some Vx, or the 16-bit address register I. */
  datatype Reg = V(x: Nibble) | I

  datatype Machine = Machine(
    memory: Memory,
    pc: ProgramCounter,
    v: Registers,
    i: Word,
    stack: seq<Word>,
    screen: Screen,
    delayTimer: Byte,
    soundTimer: Byte,
    input: seq<Byte>,
    c48Mode: bool)

  /** Memory with `bytes` written one by one from `addr` upwards. */
  function WriteBytes(mem: Memory, addr: nat, bytes: seq<Byte>): (r: Memory)
    requires addr + |bytes| <= MemorySize
    ensures forall a :: 0 <= a < MemorySize && addr <= a < addr + |bytes| ==> r[a] == bytes[a - addr]
    ensures forall a :: 0 <= a < MemorySize && !(addr <= a < addr + |bytes|) ==> r[a] == mem[a]
    decreases |bytes|
  {
    if |bytes| == 0 then mem
    else WriteBytes(mem[addr := bytes[0]], addr + 1, bytes[1..])
  }

  lemma WrittenSlice(mem: Memory, addr: nat, bytes: seq<Byte>)
    requires addr + |bytes| <= MemorySize
    ensures WriteBytes(mem, addr, bytes)[addr .. addr + |bytes|] == bytes
  {
    var r := WriteBytes(mem, addr, bytes);
  }

  /** `load_font`: the font at 0x050 .. 0x09F, everything else unchanged. */
  function LoadFont(m: Machine): (r: Machine)
    ensures r == m.(memory := r.memory)
    ensures r.memory[FontStart .. FontEnd] == Config.Font()
    ensures forall a :: 0 <= a < MemorySize && !(FontStart <= a < FontEnd) ==> r.memory[a] == m.memory[a]
  {
    var mem := WriteBytes(m.memory, FontStart, Config.Font());
    WrittenSlice(m.memory, FontStart, Config.Font());
    m.(memory := mem)
  }

  /** The struct `Chip8::new` builds before loading the font: execution at
      0x200, every register, timer, pixel and memory cell zero, nothing on the
      stack or the keypad. */
  function PowerOn(c48Mode: bool): (m: Machine)
    ensures m.pc.Value() == ProgramStart
    ensures forall r :: 0 <= r < 16 ==> m.v[r] == 0
    ensures m.i == 0 && m.stack == [] && m.input == []
    ensures m.delayTimer == 0 && m.soundTimer == 0
    ensures forall p :: 0 <= p < Size ==> !m.screen.display[p]
    ensures !m.screen.refresh
    ensures m.c48Mode == c48Mode
    ensures forall a :: 0 <= a < MemorySize ==> m.memory[a] == 0
  {
    Machine(seq(MemorySize, _ => 0), NewWithValue(ProgramStart), seq(16, _ => 0), 0, [],
            NewScreen(), 0, 0, [], c48Mode)
  }

  /** `Chip8::new`: the power-on state with the font at 0x050 .. 0x09F and
      every other memory cell zero. */
  function New(c48Mode: bool): (m: Machine)
    ensures m == PowerOn(c48Mode).(memory := m.memory)
    ensures m.memory[FontStart .. FontEnd] == Config.Font()
    ensures forall a :: 0 <= a < MemorySize && !(FontStart <= a < FontEnd) ==> m.memory[a] == 0
  {
    LoadFont(PowerOn(c48Mode))
  }

  /** `load_program_to_memory`, given the file's bytes: they land verbatim from
      0x200 on, and nothing else changes. A program longer than the 0xE00 bytes
      above 0x200 would index past the end of memory. */
  function LoadProgram(m: Machine, program: seq<Byte>): (r: Machine)
    requires |program| <= MemorySize - ProgramStart
    ensures r == m.(memory := r.memory)
    ensures forall k :: 0 <= k < |program| ==> r.memory[ProgramStart + k] == program[k]
    ensures forall a :: 0 <= a < MemorySize && !(ProgramStart <= a < ProgramStart + |program|) ==> r.memory[a] == m.memory[a]
  {
    m.(memory := WriteBytes(m.memory, ProgramStart, program))
  }

  /** Both bytes of the instruction at pc lie in memory. */
  predicate CanFetch(m: Machine)
  {
    m.pc.Value() + 1 < MemorySize
  }

  /** `fetch`: the big-endian word at pc, with pc moved past it. */
  function Fetch(m: Machine): (r: (Instruction, Machine))
    requires CanFetch(m)
    ensures r.0.raw / 0x100 == m.memory[m.pc.value] && r.0.Kk() == m.memory[m.pc.value + 1]
    ensures r.1 == m.(pc := r.1.pc) && r.1.pc.value == m.pc.value + 2
  {
    var addr := m.pc.Value();
    var instr := NewFromBytes(m.memory[addr], m.memory[addr + 1]);
    (instr, m.(pc := m.pc.Increment()))
  }

  /** The current contents of a register. */
  function Read(m: Machine, r: Reg): nat
  {
    match r
    case V(x) => m.v[x]
    case I => m.i
  }

  /** How many values the register holds: 2^8 for V registers, 2^16 for I. */
  function Capacity(r: Reg): nat
  {
    if r.V? then 0x100 else 0x1_0000
  }

  /** `to_u8()` / `to_u16()` followed by `unwrap_or_default()`: the value itself
      when it fits the register, otherwise 0. */
  function Narrow(r: Reg, val: int): (n: nat)
    ensures n < Capacity(r)
    ensures 0 <= val < Capacity(r) ==> n == val
    ensures !(0 <= val < Capacity(r)) ==> n == 0
  {
    match r
    case V(_) => if 0 <= val <= 0xFF then val else 0
    case I => if 0 <= val <= 0xFFFF then val else 0
  }

  /** Only register r may differ between the two machines. */
  predicate OnlyChanged(m: Machine, m': Machine, r: Reg)
  {
    match r
    case V(x) => m' == m.(v := m'.v) && forall j :: 0 <= j < 16 && j != x ==> m'.v[j] == m.v[j]
    case I => m' == m.(i := m'.i)
  }

  /** Writes n, which fits the register, into it. */
  function Store(m: Machine, r: Reg, n: nat): Machine
    requires n < Capacity(r)
  {
    match r
    case V(x) => m.(v := m.v[x := n])
    case I => m.(i := n)
  }

  /** `set_reg_to`: the register afterwards holds the value when it fits, else 0. */
  function SetRegTo(m: Machine, r: Reg, val: int): (res: Machine)
    ensures Read(res, r) == if 0 <= val < Capacity(r) then val else 0
    ensures OnlyChanged(m, res, r)
  {
    Store(m, r, Narrow(r, val))
  }

  /** `wrapping_add` on two values below the capacity: at most one wrap. */
  function WrappingAdd(a: nat, b: nat, capacity: nat): nat
  {
    if a + b >= capacity then a + b - capacity else a + b
  }

  /** `add_to_reg`: adds the value (0 when it does not fit) modulo the register's capacity. */
  function AddToReg(m: Machine, r: Reg, val: int): (res: Machine)
    ensures Read(res, r) == (Read(m, r) + if 0 <= val < Capacity(r) then val else 0) % Capacity(r)
    ensures OnlyChanged(m, res, r)
  {
    Store(m, r, WrappingAdd(Read(m, r), Narrow(r, val), Capacity(r)))
  }

  /** `set_register_flag_if_else_0`: VF becomes 1 or 0 by the condition. */
  function SetRegisterFlagIfElse0(m: Machine, condition: bool): (res: Machine)
    ensures res.v[FlagRegister] == 1 <==> condition
    ensures res.v[FlagRegister] == 0 <==> !condition
    ensures OnlyChanged(m, res, V(FlagRegister))
  {
    if condition then SetRegTo(m, V(FlagRegister), 1) else SetRegTo(m, V(FlagRegister), 0)
  }

  /** Adding a value and then its complement to the capacity restores the register. */
  lemma AddToRegUndo(m: Machine, r: Reg, val: int)
    requires 0 < val < Capacity(r)
    ensures AddToReg(AddToReg(m, r, val), r, Capacity(r) - val) == m
  {
    var once := AddToReg(m, r, val);
    var twice := AddToReg(once, r, Capacity(r) - val);
    assert Read(twice, r) == Read(m, r);
    match r
    case V(x) =>
      assert twice.v == m.v;
    case I =>
  }

  /** The column and row a Dxyn draw starts at: Vx and Vy wrapped to the display. */
  function DrawColumn(m: Machine, instr: Instruction): nat
  {
    m.v[instr.X()] % Width
  }

  function DrawRow(m: Machine, instr: Instruction): nat
  {
    m.v[instr.Y()] % Height
  }

  /** Every sprite row is read from memory, even a row that ends up off the
      display, so all n bytes from I must lie in memory. */
  predicate SpriteReadable(m: Machine, n: Nibble)
  {
    n == 0 || m.i + n <= MemorySize
  }

  /** The n sprite bytes from I. */
  function SpriteRows(m: Machine, n: Nibble): (s: seq<Byte>)
    requires SpriteReadable(m, n)
    ensures |s| == n
    ensures forall r :: 0 <= r < n ==> s[r] == m.memory[m.i + r]
  {
    if n == 0 then [] else m.memory[m.i .. m.i + n]
  }

  /** `draw`: every cell a set sprite bit targets flips, every other cell and
      register but VF stays, and VF reports whether a lit cell was hit. */
  function Draw(m: Machine, instr: Instruction): (r: Machine)
    requires SpriteReadable(m, instr.LastNibble())
    ensures r == m.(v := r.v, screen := m.screen.(display := r.screen.display))
    ensures forall p :: 0 <= p < Size ==>
      r.screen.display[p] == (m.screen.display[p] != Hit(SpriteRows(m, instr.LastNibble()), DrawColumn(m, instr), DrawRow(m, instr), p))
    ensures r.v[FlagRegister] == 1 <==>
      exists p :: 0 <= p < Size && m.screen.display[p] && Hit(SpriteRows(m, instr.LastNibble()), DrawColumn(m, instr), DrawRow(m, instr), p)
    ensures r.v[FlagRegister] <= 1
    ensures forall j :: 0 <= j < FlagRegister ==> r.v[j] == m.v[j]
  {
    var drawn := XorSprite(m.screen.display, SpriteRows(m, instr.LastNibble()), DrawColumn(m, instr), DrawRow(m, instr));
    m.(v := m.v[FlagRegister := if drawn.1 then 1 else 0], screen := m.screen.(display := drawn.0))
  }

  /** The state of a draw after its first `steps` sprite bits, in closed form:
      exactly the covered cells flipped, VF telling whether one of them was lit,
      nothing else changed. */
  ghost function DrawnUpTo(m: Machine, sprite: seq<Byte>, x0: int, y0: int, steps: int): Machine
  {
    var flipped := seq(Size, p requires 0 <= p < Size => m.screen.display[p] != CoveredUpTo(sprite, x0, y0, steps, p));
    m.(v := m.v[FlagRegister := if CollidedUpTo(m.screen.display, sprite, x0, y0, steps) then 1 else 0],
       screen := m.screen.(display := flipped))
  }

  /** The source's handling of one sprite bit at cell `pos`: a set bit flips the
      cell, and flipping a lit cell off sets VF. */
  function Plot(r: Machine, pos: nat, bitSet: bool): (res: Machine)
    requires pos < Size
    ensures res == r.(v := res.v, screen := r.screen.(display := res.screen.display))
    ensures res.v == r.v[FlagRegister := res.v[FlagRegister]]
    ensures forall p :: 0 <= p < Size && p != pos ==> res.screen.display[p] == r.screen.display[p]
    ensures res.screen.display[pos] == (r.screen.display[pos] != bitSet)
    ensures res.v[FlagRegister] == if bitSet && r.screen.display[pos] then 1 else r.v[FlagRegister]
  {
    if !bitSet then r
    else if r.screen.display[pos] then
      SetRegTo(r.(screen := r.screen.(display := r.screen.display[pos := false])), V(FlagRegister), 1)
    else r.(screen := r.screen.(display := r.screen.display[pos := true]))
  }

  /** Before the first bit nothing is drawn and VF is clear. */
  lemma DrawnNothing(m: Machine, sprite: seq<Byte>, x0: int, y0: int)
    ensures SetRegTo(m, V(FlagRegister), 0) == DrawnUpTo(m, sprite, x0, y0, 0)
  {
    var d := DrawnUpTo(m, sprite, x0, y0, 0);
    assert !CollidedUpTo(m.screen.display, sprite, x0, y0, 0);
    assert d.screen.display == m.screen.display;
  }

  /** Handling bit `bit` of row `row` advances the closed form by one step. */
  lemma PlotStep(m: Machine, sprite: seq<Byte>, x0: int, y0: int, row: int, bit: int, bitSet: bool, before: int, after: int)
    requires 0 <= row < |sprite| && 0 <= bit < 8
    requires 0 <= PixelIndex(x0, y0, row, bit) < Size
    requires bitSet == RowBit(sprite, row, bit)
    requires before == 8 * row + bit && after == before + 1
    ensures Plot(DrawnUpTo(m, sprite, x0, y0, before), PixelIndex(x0, y0, row, bit), bitSet)
         == DrawnUpTo(m, sprite, x0, y0, after)
  {
    PlotStepDisplay(m, sprite, x0, y0, row, bit, before, after);
    PlotStepFlag(m, sprite, x0, y0, row, bit, before, after);
    var plotted := Plot(DrawnUpTo(m, sprite, x0, y0, before), PixelIndex(x0, y0, row, bit), bitSet);
    assert plotted.v == DrawnUpTo(m, sprite, x0, y0, after).v;
  }

  lemma PlotStepDisplay(m: Machine, sprite: seq<Byte>, x0: int, y0: int, row: int, bit: int, before: int, after: int)
    requires 0 <= row < |sprite| && 0 <= bit < 8
    requires 0 <= PixelIndex(x0, y0, row, bit) < Size
    requires before == 8 * row + bit && after == before + 1
    ensures Plot(DrawnUpTo(m, sprite, x0, y0, before), PixelIndex(x0, y0, row, bit), RowBit(sprite, row, bit)).screen.display
         == DrawnUpTo(m, sprite, x0, y0, after).screen.display
  {
    CoveredUpToStep(sprite, x0, y0, row, bit, before, after);
  }

  /** The collision found up to one step further is the one found before, or the
      newly visited cell when it is on the display, its bit is set and it was lit. */
  lemma PlotStepFlag(m: Machine, sprite: seq<Byte>, x0: int, y0: int, row: int, bit: int, before: int, after: int)
    requires 0 <= row < |sprite| && 0 <= bit < 8
    requires before == 8 * row + bit && after == before + 1
    ensures CollidedUpTo(m.screen.display, sprite, x0, y0, after)
        <==> CollidedUpTo(m.screen.display, sprite, x0, y0, before)
             || (0 <= PixelIndex(x0, y0, row, bit) < Size && RowBit(sprite, row, bit) && m.screen.display[PixelIndex(x0, y0, row, bit)])
  {
    var pos := PixelIndex(x0, y0, row, bit);
    CoveredUpToStep(sprite, x0, y0, row, bit, before, after);
    if CollidedUpTo(m.screen.display, sprite, x0, y0, after) {
      var p :| 0 <= p < Size && m.screen.display[p] && CoveredUpTo(sprite, x0, y0, after, p);
      if p != pos {
        assert CollidedUpTo(m.screen.display, sprite, x0, y0, before);
      }
    }
    if CollidedUpTo(m.screen.display, sprite, x0, y0, before) {
      var p :| 0 <= p < Size && m.screen.display[p] && CoveredUpTo(sprite, x0, y0, before, p);
      assert CoveredUpTo(sprite, x0, y0, after, p);
    }
    if 0 <= pos < Size && RowBit(sprite, row, bit) && m.screen.display[pos] {
      assert CoveredUpTo(sprite, x0, y0, after, pos);
    }
  }

  /** A row whose next cell index is past the last cell, or whose bits are all
      handled, is finished. */
  lemma DrawnRowEnd(m: Machine, sprite: seq<Byte>, x0: int, y0: int, row: int, bit: int, before: int, after: int)
    requires 0 <= row < |sprite| && 0 <= bit <= 8
    requires PixelIndex(x0, y0, row, bit) >= Size || bit == 8
    requires before == 8 * row + bit && after == 8 * (row + 1)
    ensures DrawnUpTo(m, sprite, x0, y0, before) == DrawnUpTo(m, sprite, x0, y0, after)
  {
    CoveredUpToRowEnd(sprite, x0, y0, row, bit, before, after);
    assert CollidedUpTo(m.screen.display, sprite, x0, y0, before) == CollidedUpTo(m.screen.display, sprite, x0, y0, after);
    assert DrawnUpTo(m, sprite, x0, y0, before).screen.display == DrawnUpTo(m, sprite, x0, y0, after).screen.display;
  }

  /** After all n rows the closed form is exactly `Draw`. */
  lemma DrawnAllIsDraw(m: Machine, instr: Instruction)
    requires SpriteReadable(m, instr.LastNibble())
    ensures DrawnUpTo(m, SpriteRows(m, instr.LastNibble()), DrawColumn(m, instr), DrawRow(m, instr), 8 * instr.LastNibble())
         == Draw(m, instr)
  {
    var sprite, x0, y0 := SpriteRows(m, instr.LastNibble()), DrawColumn(m, instr), DrawRow(m, instr);
    AllCoveredIffHit(sprite, x0, y0);
    var d := DrawnUpTo(m, sprite, x0, y0, 8 * |sprite|);
    assert d.screen.display == Draw(m, instr).screen.display;
    assert CollidedUpTo(m.screen.display, sprite, x0, y0, 8 * |sprite|)
       <==> exists p :: 0 <= p < Size && m.screen.display[p] && Hit(sprite, x0, y0, p);
  }

  /** After `bit` left shifts of the sprite byte `b`, its bit j holds bit j - bit of b. */
  predicate ShiftedBy(spriteByte: Byte, b: Byte, bit: nat)
  {
    forall j: nat :: bit <= j < 8 ==> Bit(spriteByte, j) == Bit(b, j - bit)
  }

  /** The top bit of the shifted byte is the next bit of the row, and one more
      shift keeps the correspondence. */
  lemma ShiftedByStep(spriteByte: Byte, b: Byte, bit: nat)
    requires bit < 8 && ShiftedBy(spriteByte, b, bit)
    ensures Bit(spriteByte, 7) == Bit(b, 7 - bit)
    ensures ShiftedBy(ShiftLeft(spriteByte), b, bit + 1)
  {
    ShiftLeftBits(spriteByte);
  }

  /** Handling the top bit of the shifted byte at its cell advances the closed
      form by one step, and the next shift keeps the byte aligned. */
  lemma BitStep(m: Machine, sprite: seq<Byte>, x0: int, y0: int, row: int, bit: nat, spriteByte: Byte, before: int, after: int)
    requires 0 <= row < |sprite| && bit < 8
    requires 0 <= PixelIndex(x0, y0, row, bit) < Size
    requires before == 8 * row + bit && after == before + 1
    requires ShiftedBy(spriteByte, sprite[row], bit)
    ensures Plot(DrawnUpTo(m, sprite, x0, y0, before), PixelIndex(x0, y0, row, bit), Bit(spriteByte, 7))
         == DrawnUpTo(m, sprite, x0, y0, after)
    ensures ShiftedBy(ShiftLeft(spriteByte), sprite[row], bit + 1)
  {
    ShiftedByStep(spriteByte, sprite[row], bit);
    PlotStep(m, sprite, x0, y0, row, bit, Bit(spriteByte, 7), before, after);
  }

  /** One iteration of the source's inner loop inside the display: the top bit
      of the shifted byte is plotted at `currentPos`, then the byte is shifted. */
  method DrawBit(ghost m: Machine, r0: Machine, spriteByte0: Byte, currentPos: nat,
                 ghost sprite: seq<Byte>, ghost x0: int, ghost y0: int, ghost row: int, ghost bit: nat, ghost steps: int)
    returns (r: Machine, spriteByte: Byte)
    requires 0 <= row < |sprite| && bit < 8 && steps == 8 * row + bit
    requires currentPos == PixelIndex(x0, y0, row, bit) && currentPos < Size
    requires ShiftedBy(spriteByte0, sprite[row], bit)
    requires r0 == DrawnUpTo(m, sprite, x0, y0, steps)
    ensures r == DrawnUpTo(m, sprite, x0, y0, steps + 1)
    ensures ShiftedBy(spriteByte, sprite[row], bit + 1)
  {
    BitStep(m, sprite, x0, y0, row, bit, spriteByte0, steps, steps + 1);
    r := Plot(r0, currentPos, Bit(spriteByte0, 7));
    spriteByte := ShiftLeft(spriteByte0);
  }

  /** One pass of the source's inner loop: the eight bits of one sprite row,
      stopping at the first cell index past 2048. */
  method DrawSpriteRow(ghost m: Machine, r0: Machine, spriteByte0: Byte, displayX0: nat, displayY: nat,
                       ghost sprite: seq<Byte>, ghost x0: nat, ghost y0: nat, ghost row: nat, ghost steps0: nat)
    returns (r: Machine, displayX: nat)
    requires row < |sprite| && spriteByte0 == sprite[row] && steps0 == 8 * row
    requires x0 < Width && displayY == y0 + row
    requires displayY < Height ==> displayX0 == x0
    requires r0 == DrawnUpTo(m, sprite, x0, y0, steps0)
    ensures r == DrawnUpTo(m, sprite, x0, y0, steps0 + 8)
    ensures displayY + 1 < Height ==> displayX == x0 + 8
  {
    r, displayX := r0, displayX0;
    var spriteByte := spriteByte0;
    var bit := 0;
    ghost var steps := steps0;
    while bit < 8
      invariant 0 <= bit <= 8 && steps == steps0 + bit
      invariant displayY >= Height ==> bit == 0
      invariant displayY < Height ==> displayX == x0 + bit
      invariant ShiftedBy(spriteByte, sprite[row], bit)
      invariant r == DrawnUpTo(m, sprite, x0, y0, steps)
    {
      var currentPos := displayY * Width + displayX;
      if currentPos >= Size {
        break;
      }
      r, spriteByte := DrawBit(m, r, spriteByte, currentPos, sprite, x0, y0, row, bit, steps);
      displayX := displayX + 1;
      bit := bit + 1;
      steps := steps + 1;
    }
    DrawnRowEnd(m, sprite, x0, y0, row, bit, steps, steps0 + 8);
  }

  /** The drawing loop as the source runs it: VF cleared first, then each row's
      byte shifted out most significant bit first, and the column moved back 8
      (saturating at 0) after each row. It computes exactly `Draw`. */
  method DrawLoop(m: Machine, instr: Instruction) returns (r: Machine)
    requires SpriteReadable(m, instr.LastNibble())
    ensures r == Draw(m, instr)
  {
    var (x, y) := instr.XY();
    var displayX: nat := m.v[x] % Width;
    var displayY: nat := m.v[y] % Height;
    var bytesToRead := instr.LastNibble();
    var addr := m.i;
    r := SetRegTo(m, V(FlagRegister), 0);

    ghost var sprite := SpriteRows(m, bytesToRead);
    ghost var x0, y0 := displayX, displayY;
    ghost var steps: nat := 0;
    DrawnNothing(m, sprite, x0, y0);

    var row: nat := 0;
    while row < bytesToRead
      invariant 0 <= row <= bytesToRead && steps == 8 * row
      invariant displayY == y0 + row
      invariant displayY < Height ==> displayX == x0
      invariant r == DrawnUpTo(m, sprite, x0, y0, steps)
    {
      r, displayX := DrawSpriteRow(m, r, m.memory[addr + row], displayX, displayY, sprite, x0, y0, row, steps);
      displayX := if displayX >= 8 then displayX - 8 else 0;
      displayY := displayY + 1;
      row := row + 1;
      steps := steps + 8;
    }
    DrawnAllIsDraw(m, instr);
  }
}
