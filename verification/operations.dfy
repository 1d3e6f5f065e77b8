/** The opcode table and the effect of every instruction on the machine.

    `MAIN_TABLE` routes an instruction by its first nibble to one of sixteen
    handlers; families 0, 8, E and F branch again on a sub-code. A sub-code no
    case matches only prints a warning, so here it leaves the machine as it was.
    The random byte of Cxkk is a parameter. */
module Operations {
  import opened Bits
  import opened Instructions
  import opened ProgramCounters
  import opened Display
  import opened Chip8
  import Config

  /** The sixteen entries of `MAIN_TABLE`, one per opcode family. */
  datatype Handler =
    | Table0        // op_table_0: 00E0, 00EE
    | Jump          // op_1nnn
    | Call          // op_2nnn
    | SkipIfImm     // op_3xkk
    | SkipUnlessImm // op_4xkk
    | SkipIfReg     // op_5xy0
    | LoadImm       // op_6xkk
    | AddImm        // op_7xkk
    | Table8        // op_table_8
    | SkipUnlessReg // op_9xy0
    | LoadIndex     // op_annn
    | JumpOffset    // op_bnnn
    | RandomMask    // op_cxkk
    | DrawSprite    // op_dxyn
    | TableE        // op_table_e
    | TableF        // op_table_f

  /** The table position of a handler: the first nibble it serves. */
  function Family(h: Handler): Nibble
  {
    match h
    case Table0 => 0x0
    case Jump => 0x1
    case Call => 0x2
    case SkipIfImm => 0x3
    case SkipUnlessImm => 0x4
    case SkipIfReg => 0x5
    case LoadImm => 0x6
    case AddImm => 0x7
    case Table8 => 0x8
    case SkipUnlessReg => 0x9
    case LoadIndex => 0xA
    case JumpOffset => 0xB
    case RandomMask => 0xC
    case DrawSprite => 0xD
    case TableE => 0xE
    case TableF => 0xF
  }

  /** `MAIN_TABLE[family]`: the handler sitting at that position. */
  function MainTable(family: Nibble): (h: Handler)
    ensures Family(h) == family
  {
    match family
    case 0x0 => Table0
    case 0x1 => Jump
    case 0x2 => Call
    case 0x3 => SkipIfImm
    case 0x4 => SkipUnlessImm
    case 0x5 => SkipIfReg
    case 0x6 => LoadImm
    case 0x7 => AddImm
    case 0x8 => Table8
    case 0x9 => SkipUnlessReg
    case 0xA => LoadIndex
    case 0xB => JumpOffset
    case 0xC => RandomMask
    case 0xD => DrawSprite
    case 0xE => TableE
    case _ => TableF
  }

  /** The table is a bijection: every family has one handler, and every handler
      serves exactly one family. */
  lemma MainTableBijective()
    ensures forall family: Nibble :: Family(MainTable(family)) == family
    ensures forall h :: MainTable(Family(h)) == h
    ensures forall f1: Nibble, f2: Nibble :: MainTable(f1) == MainTable(f2) ==> f1 == f2
  {
    forall h
      ensures MainTable(Family(h)) == h
    {
      match h
      case Table0 =>
      case Jump =>
      case Call =>
      case SkipIfImm =>
      case SkipUnlessImm =>
      case SkipIfReg =>
      case LoadImm =>
      case AddImm =>
      case Table8 =>
      case SkipUnlessReg =>
      case LoadIndex =>
      case JumpOffset =>
      case RandomMask =>
      case DrawSprite =>
      case TableE =>
      case TableF =>
    }
  }

  /** The program counter can move forward one instruction without overflowing `u16`. */
  predicate CanSkip(m: Machine)
  {
    m.pc.value <= 0xFFFD
  }

  // ---------------------------------------------------------------- family 0

  /** `Vec::pop` followed by `unwrap_or_default`: the top of the stack and the
      rest, or 0 and the empty stack. */
  function Pop(stack: seq<Word>): (r: (Word, seq<Word>))
    ensures |stack| > 0 ==> r.1 + [r.0] == stack
    ensures |stack| == 0 ==> r == (0, [])
  {
    if |stack| == 0 then (0, []) else (stack[|stack| - 1], stack[..|stack| - 1])
  }

  /** `op_table_0`: 00E0 clears the display and requests a refresh; 00EE returns
      to the address on top of the stack, or to 0 when the stack is empty; any
      other kk is ignored. Only kk is examined, so 0nE0 clears too. */
  function OpTable0(m: Machine, instr: Instruction): (r: Machine)
    ensures instr.Kk() == 0xE0 ==>
      && r == m.(screen := r.screen)
      && r.screen.refresh
      && forall p :: 0 <= p < Size ==> !r.screen.display[p]
    ensures instr.Kk() == 0xEE && |m.stack| > 0 ==>
      && r == m.(pc := r.pc, stack := r.stack)
      && r.stack + [r.pc.value] == m.stack
    ensures instr.Kk() == 0xEE && |m.stack| == 0 ==>
      r == m.(pc := r.pc) && r.pc.value == 0
    ensures instr.Kk() != 0xE0 && instr.Kk() != 0xEE ==> r == m
  {
    match instr.Kk()
    case 0xE0 => m.(screen := Clear(m.screen).(refresh := true))
    case 0xEE =>
      var (top, rest) := Pop(m.stack);
      m.(pc := m.pc.SetTo(top), stack := rest)
    case _ => m
  }

  // ------------------------------------------------------- jumps and skips

  /** `op_1nnn`: jump to nnn. */
  function Op1nnn(m: Machine, instr: Instruction): (r: Machine)
    ensures r == m.(pc := r.pc) && r.pc.value == instr.Nnn()
  {
    m.(pc := m.pc.SetTo(instr.Nnn()))
  }

  /** `op_2nnn`: push the (already advanced) pc and jump to nnn. */
  function Op2nnn(m: Machine, instr: Instruction): (r: Machine)
    ensures r == m.(pc := r.pc, stack := r.stack)
    ensures r.stack == m.stack + [m.pc.value] && r.pc.value == instr.Nnn()
  {
    m.(stack := m.stack + [m.pc.Value()], pc := m.pc.SetTo(instr.Nnn()))
  }

  /** A call followed by a return comes back to the instruction after the call
      with the stack as it was. */
  lemma CallThenReturn(m: Machine, call: Instruction, ret: Instruction)
    requires ret.Kk() == 0xEE
    ensures OpTable0(Op2nnn(m, call), ret) == m
  {
  }

  /** `op_3xkk`: skip the next instruction when Vx == kk. */
  function Op3xkk(m: Machine, instr: Instruction): (r: Machine)
    requires m.v[instr.X()] == instr.Kk() ==> CanSkip(m)
    ensures r == m.(pc := r.pc)
    ensures m.v[instr.X()] == instr.Kk() ==> r.pc.value == m.pc.value + 2
    ensures m.v[instr.X()] != instr.Kk() ==> r.pc == m.pc
  {
    m.(pc := m.pc.IncrementIf(m.v[instr.X()] == instr.Kk()))
  }

  /** `op_4xkk`: skip the next instruction when Vx != kk. */
  function Op4xkk(m: Machine, instr: Instruction): (r: Machine)
    requires m.v[instr.X()] != instr.Kk() ==> CanSkip(m)
    ensures r == m.(pc := r.pc)
    ensures m.v[instr.X()] != instr.Kk() ==> r.pc.value == m.pc.value + 2
    ensures m.v[instr.X()] == instr.Kk() ==> r.pc == m.pc
  {
    m.(pc := m.pc.IncrementIf(m.v[instr.X()] != instr.Kk()))
  }

  /** `op_5xy0`: skip the next instruction when Vx == Vy; the last nibble is not examined. */
  function Op5xy0(m: Machine, instr: Instruction): (r: Machine)
    requires m.v[instr.X()] == m.v[instr.Y()] ==> CanSkip(m)
    ensures r == m.(pc := r.pc)
    ensures m.v[instr.X()] == m.v[instr.Y()] ==> r.pc.value == m.pc.value + 2
    ensures m.v[instr.X()] != m.v[instr.Y()] ==> r.pc == m.pc
  {
    var (x, y) := instr.XY();
    m.(pc := m.pc.IncrementIf(m.v[x] == m.v[y]))
  }

  /** `op_9xy0`: skip the next instruction when Vx != Vy; the last nibble is not examined. */
  function Op9xy0(m: Machine, instr: Instruction): (r: Machine)
    requires m.v[instr.X()] != m.v[instr.Y()] ==> CanSkip(m)
    ensures r == m.(pc := r.pc)
    ensures m.v[instr.X()] != m.v[instr.Y()] ==> r.pc.value == m.pc.value + 2
    ensures m.v[instr.X()] == m.v[instr.Y()] ==> r.pc == m.pc
  {
    var (x, y) := instr.XY();
    m.(pc := m.pc.IncrementIf(m.v[x] != m.v[y]))
  }

  /** The skip pairs 3xkk/4xkk and 5xy0/9xy0 are complementary: on the same
      registers exactly one of the two skips. */
  lemma SkipPairsComplementary(m: Machine, instr: Instruction)
    requires CanSkip(m)
    ensures Op3xkk(m, instr).pc.value + Op4xkk(m, instr).pc.value == 2 * m.pc.value + 2
    ensures Op5xy0(m, instr).pc.value + Op9xy0(m, instr).pc.value == 2 * m.pc.value + 2
  {
  }

  /** `op_bnnn`: jump to nnn + V0; with the CHIP-48 quirk, to kk + Vx computed
      in `u8` arithmetic, whose overflow panics. */
  function OpBnnn(m: Machine, instr: Instruction): (r: Machine)
    requires m.c48Mode ==> instr.Kk() + m.v[instr.X()] <= 0xFF
    ensures r == m.(pc := r.pc)
    ensures m.c48Mode ==> r.pc.value == instr.Kk() + m.v[instr.X()]
    ensures !m.c48Mode ==> r.pc.value == instr.Nnn() + m.v[0]
  {
    if m.c48Mode then m.(pc := m.pc.SetTo(instr.Kk() + m.v[instr.X()]))
    else m.(pc := m.pc.SetTo(instr.Nnn() + m.v[0]))
  }

  /** Outside CHIP-48 mode, Bnnn with V0 = 0 is the plain jump 1nnn; in CHIP-48
      mode it ignores V0 and jumps within the first 256 bytes. */
  lemma OffsetJumpMatchesJump(m: Machine, instr: Instruction)
    requires m.c48Mode ==> instr.Kk() + m.v[instr.X()] <= 0xFF
    ensures !m.c48Mode && m.v[0] == 0 ==> OpBnnn(m, instr) == Op1nnn(m, instr)
    ensures m.c48Mode ==> OpBnnn(m, instr).pc.value < 0x100
  {
  }

  // ------------------------------------------------------ immediate loads

  /** `op_6xkk`: Vx := kk. */
  function Op6xkk(m: Machine, instr: Instruction): (r: Machine)
    ensures r.v[instr.X()] == instr.Kk()
    ensures OnlyChanged(m, r, V(instr.X()))
  {
    SetRegTo(m, V(instr.X()), instr.Kk())
  }

  /** `op_7xkk`: Vx := Vx + kk, wrapping, with VF untouched (unless x is F). */
  function Op7xkk(m: Machine, instr: Instruction): (r: Machine)
    ensures r.v[instr.X()] == (m.v[instr.X()] + instr.Kk()) % 0x100
    ensures OnlyChanged(m, r, V(instr.X()))
  {
    AddToReg(m, V(instr.X()), instr.Kk())
  }

  /** 7xkk is undone by a second 7xkk on the same register whose immediate
      complements the first to 256. */
  lemma AddImmediateUndo(m: Machine, add: Instruction, back: Instruction)
    requires add.X() == back.X() && add.Kk() > 0 && add.Kk() + back.Kk() == 0x100
    ensures Op7xkk(Op7xkk(m, add), back) == m
  {
    AddToRegUndo(m, V(add.X()), add.Kk());
  }

  /** `op_annn`: I := nnn. */
  function OpAnnn(m: Machine, instr: Instruction): (r: Machine)
    ensures r.i == instr.Nnn()
    ensures OnlyChanged(m, r, I)
  {
    SetRegTo(m, I, instr.Nnn())
  }

  /** `op_cxkk`: Vx := random & kk, with the random byte supplied. */
  function OpCxkk(m: Machine, instr: Instruction, random: Byte): (r: Machine)
    ensures forall k: nat :: Bit(r.v[instr.X()], k) == (Bit(random, k) && Bit(instr.Kk(), k))
    ensures OnlyChanged(m, r, V(instr.X()))
  {
    SetRegTo(m, V(instr.X()), ByteOp(And, random, instr.Kk()))
  }

  /** Cxkk never sets a bit outside kk: with kk = 0 the result is 0, and with
      kk = 0xFF it is the random byte itself. */
  lemma CxkkMask(m: Machine, instr: Instruction, random: Byte)
    ensures forall k: nat :: Bit(OpCxkk(m, instr, random).v[instr.X()], k) ==> Bit(instr.Kk(), k)
    ensures instr.Kk() == 0 ==> OpCxkk(m, instr, random).v[instr.X()] == 0
    ensures instr.Kk() == 0xFF ==> OpCxkk(m, instr, random).v[instr.X()] == random
  {
    var r := OpCxkk(m, instr, random).v[instr.X()];
    if instr.Kk() == 0 {
      forall k: nat
        ensures Bit(r, k) == Bit(0, k)
      {
        ZeroHasNoBits(k);
      }
      SameBitsSameNumber(r, 0);
    }
    if instr.Kk() == 0xFF {
      forall k: nat
        ensures Bit(r, k) == Bit(random, k)
      {
        assert Pow2(8) == 0x100;
        if k < 8 {
          AllOnes(8, k);
        } else {
          NoBitsAbove(random, 8, k);
        }
      }
      SameBitsSameNumber(r, random);
    }
  }

  /** 2^n - 1 has every bit below n set. */
  lemma {:induction false} AllOnes(n: nat, k: nat)
    requires k < n
    ensures Bit(Pow2(n) - 1, k)
  {
    if k > 0 {
      assert (Pow2(n) - 1) / 2 == Pow2(n - 1) - 1;
      AllOnes(n - 1, k - 1);
    }
  }

  // -------------------------------------------------------------- family 8

  /** Rust `u8::overflowing_add`: the wrapped sum and whether it wrapped. */
  function OverflowingAdd(a: Byte, b: Byte): (r: (Byte, bool))
    ensures r.0 == (a as int + b) % 0x100
    ensures r.1 <==> a as int + b > 0xFF
  {
    var sum: int := a + b;
    if sum > 0xFF then (sum - 0x100, true) else (sum, false)
  }

  /** Rust `u8::overflowing_sub`: the wrapped difference and whether it borrowed. */
  function OverflowingSub(a: Byte, b: Byte): (r: (Byte, bool))
    ensures r.0 == (a as int - b) % 0x100
    ensures r.1 <==> a < b
  {
    var diff: int := a - b;
    if diff < 0 then (diff + 0x100, true) else (diff, false)
  }

  /** Rust `u8::overflowing_shr(1)`: the shifted value, and `false`, since the
      flag reports a shift amount of 8 or more, never a bit shifted out. */
  function OverflowingShr1(a: Byte): (r: (Byte, bool))
    ensures !r.1
    ensures forall k: nat :: Bit(r.0, k) == Bit(a, k + 1)
    ensures !Bit(r.0, 7)
  {
    assert Pow2(7) == 0x80;
    NoBitsAbove(a / 2, 7, 7);
    (a / 2, false)
  }

  /** Rust `u8::overflowing_shl(1)`: the shifted value, and `false`, for the same reason. */
  function OverflowingShl1(a: Byte): (r: (Byte, bool))
    ensures !r.1
    ensures !Bit(r.0, 0)
    ensures forall k: nat :: 1 <= k < 8 ==> Bit(r.0, k) == Bit(a, k - 1)
  {
    ShiftLeftBits(a);
    (ShiftLeft(a), false)
  }

  /** Only Vx and VF may differ between the two machines. */
  predicate OnlyVxAndFlag(m: Machine, r: Machine, x: Nibble)
  {
    && r == m.(v := r.v)
    && forall j :: 0 <= j < 16 && j != x && j != FlagRegister ==> r.v[j] == m.v[j]
  }

  /** 8xy0: Vx := Vy. */
  function Op8xy0(m: Machine, instr: Instruction): (r: Machine)
    ensures r.v[instr.X()] == m.v[instr.Y()]
    ensures OnlyChanged(m, r, V(instr.X()))
  {
    var (x, y) := instr.XY();
    SetRegTo(m, V(x), m.v[y])
  }

  /** 8xy1, 8xy2, 8xy3: Vx := Vx | Vy, Vx & Vy, Vx ^ Vy; VF is untouched. */
  function Op8xyLogic(m: Machine, instr: Instruction, op: BitOp): (r: Machine)
    ensures forall k: nat :: Bit(r.v[instr.X()], k) == Apply(op, Bit(m.v[instr.X()], k), Bit(m.v[instr.Y()], k))
    ensures OnlyChanged(m, r, V(instr.X()))
  {
    var (x, y) := instr.XY();
    SetRegTo(m, V(x), ByteOp(op, m.v[x], m.v[y]))
  }

  /** 8xy3 applied twice with distinct registers restores Vx. */
  lemma XorTwice(m: Machine, instr: Instruction)
    requires instr.X() != instr.Y()
    ensures Op8xyLogic(Op8xyLogic(m, instr, Xor), instr, Xor) == m
  {
    var once := Op8xyLogic(m, instr, Xor);
    var twice := Op8xyLogic(once, instr, Xor);
    var x := instr.X();
    assert once.v[instr.Y()] == m.v[instr.Y()];
    SameBitsSameNumber(twice.v[x], m.v[x]);
    assert twice.v == m.v;
  }

  /** 8xy4: Vx := Vx + Vy wrapping, VF := carry. VF is written first, so for
      x = F the sum overwrites the carry. */
  function Op8xy4(m: Machine, instr: Instruction): (r: Machine)
    ensures OnlyVxAndFlag(m, r, instr.X())
    ensures r.v[instr.X()] == (m.v[instr.X()] as int + m.v[instr.Y()]) % 0x100
    ensures instr.X() != FlagRegister ==>
      r.v[FlagRegister] == if m.v[instr.X()] as int + m.v[instr.Y()] > 0xFF then 1 else 0
  {
    var (x, y) := instr.XY();
    var (val, overflow) := OverflowingAdd(m.v[x], m.v[y]);
    SetRegTo(SetRegisterFlagIfElse0(m, overflow), V(x), val)
  }

  /** 8xy5: Vx := Vx - Vy wrapping, VF := 1 when there was no borrow (Vx >= Vy). */
  function Op8xy5(m: Machine, instr: Instruction): (r: Machine)
    ensures OnlyVxAndFlag(m, r, instr.X())
    ensures r.v[instr.X()] == (m.v[instr.X()] as int - m.v[instr.Y()]) % 0x100
    ensures instr.X() != FlagRegister ==>
      r.v[FlagRegister] == if m.v[instr.X()] >= m.v[instr.Y()] then 1 else 0
  {
    var (x, y) := instr.XY();
    var (val, overflow) := OverflowingSub(m.v[x], m.v[y]);
    SetRegTo(SetRegisterFlagIfElse0(m, !overflow), V(x), val)
  }

  /** 8xy7: Vx := Vy - Vx wrapping, VF := 1 when there was no borrow (Vy >= Vx). */
  function Op8xy7(m: Machine, instr: Instruction): (r: Machine)
    ensures OnlyVxAndFlag(m, r, instr.X())
    ensures r.v[instr.X()] == (m.v[instr.Y()] as int - m.v[instr.X()]) % 0x100
    ensures instr.X() != FlagRegister ==>
      r.v[FlagRegister] == if m.v[instr.Y()] >= m.v[instr.X()] then 1 else 0
  {
    var (x, y) := instr.XY();
    var (val, overflow) := OverflowingSub(m.v[y], m.v[x]);
    SetRegTo(SetRegisterFlagIfElse0(m, !overflow), V(x), val)
  }

  /** The register the shifts read: Vy (copied into Vx first), or Vx itself in CHIP-48 mode. */
  function ShiftSource(m: Machine, instr: Instruction): Byte
  {
    if m.c48Mode then m.v[instr.X()] else m.v[instr.Y()]
  }

  /** 8xy6: Vx := source >> 1, and VF := 0 always, because the overflow flag of
      `overflowing_shr(1)` is always false. */
  function Op8xy6(m: Machine, instr: Instruction): (r: Machine)
    ensures OnlyVxAndFlag(m, r, instr.X())
    ensures forall k: nat :: Bit(r.v[instr.X()], k) == Bit(ShiftSource(m, instr), k + 1)
    ensures r.v[instr.X()] == ShiftSource(m, instr) / 2
    ensures instr.X() != FlagRegister ==> r.v[FlagRegister] == 0
  {
    var (x, y) := instr.XY();
    var m1 := if !m.c48Mode then SetRegTo(m, V(x), m.v[y]) else m;
    var (val, overflow) := OverflowingShr1(m1.v[x]);
    SetRegTo(SetRegisterFlagIfElse0(m1, overflow), V(x), val)
  }

  /** 8xyE: Vx := source << 1 (the top bit falls off), and VF := 1 always,
      because the handler stores the negated, always false, overflow flag. */
  function Op8xyE(m: Machine, instr: Instruction): (r: Machine)
    ensures OnlyVxAndFlag(m, r, instr.X())
    ensures !Bit(r.v[instr.X()], 0)
    ensures forall k: nat :: 1 <= k < 8 ==> Bit(r.v[instr.X()], k) == Bit(ShiftSource(m, instr), k - 1)
    ensures r.v[instr.X()] == (2 * ShiftSource(m, instr) as int) % 0x100
    ensures instr.X() != FlagRegister ==> r.v[FlagRegister] == 1
  {
    var (x, y) := instr.XY();
    var m1 := if !m.c48Mode then SetRegTo(m, V(x), m.v[y]) else m;
    var (val, overflow) := OverflowingShl1(m1.v[x]);
    SetRegTo(SetRegisterFlagIfElse0(m1, !overflow), V(x), val)
  }

  /** The flag is written before the result: with x = F the arithmetic and
      shift instructions leave the result in VF, not the flag. */
  lemma FlagWrittenBeforeResult(m: Machine, instr: Instruction)
    requires instr.X() == FlagRegister
    ensures Op8xy4(m, instr).v[FlagRegister] == (m.v[FlagRegister] as int + m.v[instr.Y()]) % 0x100
    ensures Op8xy5(m, instr).v[FlagRegister] == (m.v[FlagRegister] as int - m.v[instr.Y()]) % 0x100
    ensures Op8xy7(m, instr).v[FlagRegister] == (m.v[instr.Y()] as int - m.v[FlagRegister]) % 0x100
    ensures Op8xy6(m, instr).v[FlagRegister] == ShiftSource(m, instr) / 2
    ensures Op8xyE(m, instr).v[FlagRegister] == (2 * ShiftSource(m, instr) as int) % 0x100
  {
  }

  /** Adding and then subtracting the same register restores Vx. */
  lemma AddThenSubtract(m: Machine, instr: Instruction)
    requires instr.X() != instr.Y() && instr.X() != FlagRegister && instr.Y() != FlagRegister
    ensures Op8xy5(Op8xy4(m, instr), instr).v[instr.X()] == m.v[instr.X()]
  {
  }

  /** In CHIP-48 mode a right shift then a left shift clears the lowest bit of Vx. */
  lemma ShiftRightThenLeft(m: Machine, instr: Instruction)
    requires m.c48Mode && instr.X() != FlagRegister
    ensures Op8xyE(Op8xy6(m, instr), instr).v[instr.X()] == m.v[instr.X()] - m.v[instr.X()] % 2
  {
  }

  /** `op_table_8`: dispatch on the last nibble; only Vx and VF ever change. */
  function OpTable8(m: Machine, instr: Instruction): (r: Machine)
    ensures OnlyVxAndFlag(m, r, instr.X())
    ensures !(instr.LastNibble() in {0x0, 0x1, 0x2, 0x3, 0x4, 0x5, 0x6, 0x7, 0xE}) ==> r == m
  {
    match instr.LastNibble()
    case 0x0 => Op8xy0(m, instr)
    case 0x1 => Op8xyLogic(m, instr, Or)
    case 0x2 => Op8xyLogic(m, instr, And)
    case 0x3 => Op8xyLogic(m, instr, Xor)
    case 0x4 => Op8xy4(m, instr)
    case 0x5 => Op8xy5(m, instr)
    case 0x6 => Op8xy6(m, instr)
    case 0x7 => Op8xy7(m, instr)
    case 0xE => Op8xyE(m, instr)
    case _ => m
  }

  // -------------------------------------------------------------- family E

  /** `op_table_e`: Ex9E skips when the key Vx is in the input, ExA1 when it is not. */
  function OpTableE(m: Machine, instr: Instruction): (r: Machine)
    requires instr.Kk() == 0x9E && m.v[instr.X()] in m.input ==> CanSkip(m)
    requires instr.Kk() == 0xA1 && m.v[instr.X()] !in m.input ==> CanSkip(m)
    ensures r == m.(pc := r.pc)
    ensures instr.Kk() == 0x9E ==>
      r.pc.value == if m.v[instr.X()] in m.input then m.pc.value + 2 else m.pc.value
    ensures instr.Kk() == 0xA1 ==>
      r.pc.value == if m.v[instr.X()] !in m.input then m.pc.value + 2 else m.pc.value
    ensures instr.Kk() != 0x9E && instr.Kk() != 0xA1 ==> r == m
  {
    match instr.Kk()
    case 0x9E => m.(pc := m.pc.IncrementIf(m.v[instr.X()] in m.input))
    case 0xA1 => m.(pc := m.pc.IncrementIf(m.v[instr.X()] !in m.input))
    case _ => m
  }

  // -------------------------------------------------------------- family F

  /** Fx07: Vx := delay timer. */
  function OpFx07(m: Machine, instr: Instruction): (r: Machine)
    ensures r.v[instr.X()] == m.delayTimer
    ensures OnlyChanged(m, r, V(instr.X()))
  {
    SetRegTo(m, V(instr.X()), m.delayTimer)
  }

  /** Fx0A: wait for a key. With no key down the pc moves back onto this
      instruction and Vx := 0; otherwise Vx := the first key down. */
  function OpFx0A(m: Machine, instr: Instruction): (r: Machine)
    requires |m.input| == 0 ==> m.pc.value >= 2
    ensures r == m.(pc := r.pc, v := r.v)
    ensures forall j :: 0 <= j < 16 && j != instr.X() ==> r.v[j] == m.v[j]
    ensures |m.input| == 0 ==> r.pc.value == m.pc.value - 2 && r.v[instr.X()] == 0
    ensures |m.input| > 0 ==> r.pc == m.pc && r.v[instr.X()] == m.input[0]
  {
    var m1 := m.(pc := m.pc.DecrementIf(|m.input| == 0));
    var key := if |m.input| > 0 then m.input[0] else 0;
    SetRegTo(m1, V(instr.X()), key)
  }

  /** Fx15: delay timer := Vx. */
  function OpFx15(m: Machine, instr: Instruction): (r: Machine)
    ensures r == m.(delayTimer := r.delayTimer) && r.delayTimer == m.v[instr.X()]
  {
    m.(delayTimer := m.v[instr.X()])
  }

  /** Fx18: sound timer := Vx. */
  function OpFx18(m: Machine, instr: Instruction): (r: Machine)
    ensures r == m.(soundTimer := r.soundTimer) && r.soundTimer == m.v[instr.X()]
  {
    m.(soundTimer := m.v[instr.X()])
  }

  /** Setting the delay timer from Vx and reading it back into Vx changes no register. */
  lemma DelayTimerRoundTrip(m: Machine, instr: Instruction)
    ensures OpFx07(OpFx15(m, instr), instr) == OpFx15(m, instr)
  {
    var loaded := OpFx15(m, instr);
    assert OpFx07(loaded, instr).v == loaded.v;
  }

  /** Fx1E: I := I + Vx wrapping at 2^16; VF := 1 when the new I exceeds 0x1000,
      and VF is left alone otherwise. */
  function OpFx1E(m: Machine, instr: Instruction): (r: Machine)
    ensures r == m.(i := r.i, v := r.v)
    ensures r.i == (m.i + m.v[instr.X()]) % 0x1_0000
    ensures forall j :: 0 <= j < FlagRegister ==> r.v[j] == m.v[j]
    ensures r.v[FlagRegister] == if r.i > 0x1000 then 1 else m.v[FlagRegister]
  {
    var m1 := AddToReg(m, I, m.v[instr.X()]);
    if m1.i > 0x1000 then SetRegTo(m1, V(FlagRegister), 1) else m1
  }

  /** Fx29: I := the address of the font glyph for the low nibble of Vx. */
  function OpFx29(m: Machine, instr: Instruction): (r: Machine)
    ensures OnlyChanged(m, r, I)
    ensures r.i == FontStart + 5 * (m.v[instr.X()] % 0x10)
  {
    var ch := m.v[instr.X()] % 0x10;
    SetRegTo(m, I, 0x050 + 5 * ch)
  }

  /** While the font is in place, Fx29 points I at the five rows of the glyph for Vx's low nibble. */
  lemma FontAddressHoldsGlyph(m: Machine, instr: Instruction)
    requires m.memory[FontStart .. FontEnd] == Config.Font()
    ensures OpFx29(m, instr).i + 5 <= MemorySize
    ensures OpFx29(m, instr).memory[OpFx29(m, instr).i .. OpFx29(m, instr).i + 5]
         == Config.Glyph(m.v[instr.X()] % 0x10)
  {
    var d := m.v[instr.X()] % 0x10;
    var r := OpFx29(m, instr);
    assert r.memory == m.memory && r.i == FontStart + 5 * d;
    GlyphInMemory(m.memory, d);
  }

  /** With the font in place, glyph d occupies the five bytes from 0x050 + 5 * d. */
  lemma GlyphInMemory(mem: Memory, d: Nibble)
    requires mem[FontStart .. FontEnd] == Config.Font()
    ensures mem[FontStart + 5 * d .. FontStart + 5 * d + 5] == Config.Glyph(d)
  {
    var glyph := Config.Glyph(d);
    RowsInMemory(mem, Config.Font(), d, glyph);
  }

  /** Five rows stored at offset 5 * d of a table that sits at 0x050 in memory. */
  lemma RowsInMemory(mem: Memory, table: seq<Byte>, d: Nibble, rows: seq<Byte>)
    requires |rows| == 5 && mem[FontStart .. FontEnd] == table
    requires forall row :: 0 <= row < 5 ==> table[5 * d + row] == rows[row]
    ensures mem[FontStart + 5 * d .. FontStart + 5 * d + 5] == rows
  {
    forall row | 0 <= row < 5
      ensures mem[FontStart + 5 * d + row] == rows[row]
    {
      assert mem[FontStart + 5 * d + row] == table[5 * d + row];
    }
  }

  /** The three decimal digits of a byte, most significant first. */
  function DecimalDigits(val: Byte): (r: seq<Byte>)
    ensures |r| == 3
    ensures forall k :: 0 <= k < 3 ==> r[k] < 10
    ensures 100 * (r[0] as int) + 10 * (r[1] as int) + r[2] as int == val
  {
    [val / 100, (val % 100) / 10, (val % 100) % 10]
  }

  /** Fx33: the decimal digits of Vx at I, I+1 and I+2. */
  function OpFx33(m: Machine, instr: Instruction): (r: Machine)
    requires m.i + 2 < MemorySize
    ensures r == m.(memory := r.memory)
    ensures 100 * (r.memory[m.i] as int) + 10 * (r.memory[m.i + 1] as int) + r.memory[m.i + 2] as int == m.v[instr.X()]
    ensures r.memory[m.i] < 10 && r.memory[m.i + 1] < 10 && r.memory[m.i + 2] < 10
    ensures forall a :: 0 <= a < MemorySize && !(m.i <= a < m.i + 3) ==> r.memory[a] == m.memory[a]
  {
    m.(memory := WriteBytes(m.memory, m.i, DecimalDigits(m.v[instr.X()])))
  }

  /** Fx55: V0 ..= Vx stored at I ..= I + x; I is unchanged. */
  function OpFx55(m: Machine, instr: Instruction): (r: Machine)
    requires m.i + instr.X() < MemorySize
    ensures r == m.(memory := r.memory)
    ensures forall n :: 0 <= n <= instr.X() ==> r.memory[m.i + n] == m.v[n]
    ensures forall a :: 0 <= a < MemorySize && !(m.i <= a <= m.i + instr.X()) ==> r.memory[a] == m.memory[a]
  {
    m.(memory := WriteBytes(m.memory, m.i, m.v[..instr.X() + 1]))
  }

  /** The source's loop `for n in 0..count`, loading Vn from I + n. */
  function LoadRegisters(m: Machine, count: nat): (r: Machine)
    requires count <= 16 && m.i + count <= MemorySize
    ensures r == m.(v := r.v)
    ensures forall n :: 0 <= n < count ==> r.v[n] == m.memory[m.i + n]
    ensures forall n :: count <= n < 16 ==> r.v[n] == m.v[n]
  {
    if count == 0 then m
    else SetRegTo(LoadRegisters(m, count - 1), V(count - 1), m.memory[m.i + count - 1])
  }

  /** Fx65: V0 ..= Vx loaded from I ..= I + x; I is unchanged. */
  function OpFx65(m: Machine, instr: Instruction): (r: Machine)
    requires m.i + instr.X() < MemorySize
    ensures r == m.(v := r.v)
    ensures forall n :: 0 <= n <= instr.X() ==> r.v[n] == m.memory[m.i + n]
    ensures forall n :: instr.X() < n < 16 ==> r.v[n] == m.v[n]
  {
    LoadRegisters(m, instr.X() + 1)
  }

  /** Storing registers and loading them back from the same place changes no register. */
  lemma StoreThenLoad(m: Machine, instr: Instruction)
    requires m.i + instr.X() < MemorySize
    ensures OpFx65(OpFx55(m, instr), instr) == OpFx55(m, instr)
  {
    var stored := OpFx55(m, instr);
    assert OpFx65(stored, instr).v == stored.v;
  }

  /** The preconditions of `op_table_f`: the panics of Fx0A, Fx33, Fx55 and Fx65. */
  predicate TableFSafe(m: Machine, instr: Instruction)
  {
    match instr.Kk()
    case 0x0A => |m.input| == 0 ==> m.pc.value >= 2
    case 0x33 => m.i + 2 < MemorySize
    case 0x55 => m.i + instr.X() < MemorySize
    case 0x65 => m.i + instr.X() < MemorySize
    case _ => true
  }

  /** `op_table_f`: dispatch on kk; the stack, display, input and mode never
      change, and an unknown kk changes nothing. */
  function OpTableF(m: Machine, instr: Instruction): (r: Machine)
    requires TableFSafe(m, instr)
    ensures r.stack == m.stack && r.screen == m.screen && r.input == m.input && r.c48Mode == m.c48Mode
    ensures !(instr.Kk() in {0x07, 0x0A, 0x15, 0x18, 0x1E, 0x29, 0x33, 0x55, 0x65}) ==> r == m
  {
    match instr.Kk()
    case 0x07 => OpFx07(m, instr)
    case 0x0A => OpFx0A(m, instr)
    case 0x15 => OpFx15(m, instr)
    case 0x18 => OpFx18(m, instr)
    case 0x1E => OpFx1E(m, instr)
    case 0x29 => OpFx29(m, instr)
    case 0x33 => OpFx33(m, instr)
    case 0x55 => OpFx55(m, instr)
    case 0x65 => OpFx65(m, instr)
    case _ => m
  }

  // --------------------------------------------------------------- drawing

  /** `op_dxyn`: draw the sprite and request a refresh. */
  function OpDxyn(m: Machine, instr: Instruction): (r: Machine)
    requires SpriteReadable(m, instr.LastNibble())
    ensures r == m.(v := r.v, screen := r.screen)
    ensures r.screen.refresh
    ensures forall p :: 0 <= p < Size ==>
      r.screen.display[p] == (m.screen.display[p] != Hit(SpriteRows(m, instr.LastNibble()), DrawColumn(m, instr), DrawRow(m, instr), p))
    ensures r.v[FlagRegister] == 1 <==>
      exists p :: 0 <= p < Size && m.screen.display[p] && Hit(SpriteRows(m, instr.LastNibble()), DrawColumn(m, instr), DrawRow(m, instr), p)
    ensures r.v[FlagRegister] <= 1
    ensures forall j :: 0 <= j < FlagRegister ==> r.v[j] == m.v[j]
  {
    var drawn := Draw(m, instr);
    drawn.(screen := drawn.screen.(refresh := true))
  }

  /** Drawing the same sprite twice restores the display, as long as neither
      coordinate register is VF (which the first draw overwrites). */
  lemma DrawTwiceRestores(m: Machine, instr: Instruction)
    requires SpriteReadable(m, instr.LastNibble())
    requires instr.X() != FlagRegister && instr.Y() != FlagRegister
    ensures SpriteReadable(OpDxyn(m, instr), instr.LastNibble())
    ensures OpDxyn(OpDxyn(m, instr), instr).screen.display == m.screen.display
  {
    var once := OpDxyn(m, instr);
    var sprite, x, y := SpriteRows(m, instr.LastNibble()), DrawColumn(m, instr), DrawRow(m, instr);
    assert SpriteRows(once, instr.LastNibble()) == sprite;
    XorSpriteTwice(m.screen.display, sprite, x, y);
    assert once.screen.display == XorSprite(m.screen.display, sprite, x, y).0;
    assert OpDxyn(once, instr).screen.display == XorSprite(once.screen.display, sprite, x, y).0;
  }

  // -------------------------------------------------------------- dispatch

  /** Everything the handler for this instruction needs to run without a panic. */
  predicate Safe(m: Machine, instr: Instruction)
  {
    match MainTable(instr.FirstNibble())
    case SkipIfImm => m.v[instr.X()] == instr.Kk() ==> CanSkip(m)
    case SkipUnlessImm => m.v[instr.X()] != instr.Kk() ==> CanSkip(m)
    case SkipIfReg => m.v[instr.X()] == m.v[instr.Y()] ==> CanSkip(m)
    case SkipUnlessReg => m.v[instr.X()] != m.v[instr.Y()] ==> CanSkip(m)
    case JumpOffset => m.c48Mode ==> instr.Kk() + m.v[instr.X()] <= 0xFF
    case DrawSprite => SpriteReadable(m, instr.LastNibble())
    case TableE =>
      && (instr.Kk() == 0x9E && m.v[instr.X()] in m.input ==> CanSkip(m))
      && (instr.Kk() == 0xA1 && m.v[instr.X()] !in m.input ==> CanSkip(m))
    case TableF => TableFSafe(m, instr)
    case _ => true
  }

  /** Runs one handler of the table. */
  function Execute(h: Handler, m: Machine, instr: Instruction, random: Byte): (r: Machine)
    requires Family(h) == instr.FirstNibble() && Safe(m, instr)
    ensures r.c48Mode == m.c48Mode && r.input == m.input
    ensures h != Table0 && h != Call ==> r.stack == m.stack
    ensures h != Table0 && h != DrawSprite ==> r.screen == m.screen
    ensures h != TableF ==> r.memory == m.memory && r.delayTimer == m.delayTimer && r.soundTimer == m.soundTimer
  {
    match h
    case Table0 => OpTable0(m, instr)
    case Jump => Op1nnn(m, instr)
    case Call => Op2nnn(m, instr)
    case SkipIfImm => Op3xkk(m, instr)
    case SkipUnlessImm => Op4xkk(m, instr)
    case SkipIfReg => Op5xy0(m, instr)
    case LoadImm => Op6xkk(m, instr)
    case AddImm => Op7xkk(m, instr)
    case Table8 => OpTable8(m, instr)
    case SkipUnlessReg => Op9xy0(m, instr)
    case LoadIndex => OpAnnn(m, instr)
    case JumpOffset => OpBnnn(m, instr)
    case RandomMask => OpCxkk(m, instr, random)
    case DrawSprite => OpDxyn(m, instr)
    case TableE => OpTableE(m, instr)
    case TableF => OpTableF(m, instr)
  }

  /** `decode_and_execute`: the handler `MAIN_TABLE` holds for the first nibble.
      No instruction changes the mode or the keypad input; only families 0
      and 2 touch the stack, only 0 and D the display, and only F memory and the timers. */
  function DecodeAndExecute(m: Machine, instr: Instruction, random: Byte): (r: Machine)
    requires Safe(m, instr)
    ensures r.c48Mode == m.c48Mode && r.input == m.input
    ensures instr.FirstNibble() != 0x0 && instr.FirstNibble() != 0x2 ==> r.stack == m.stack
    ensures instr.FirstNibble() != 0x0 && instr.FirstNibble() != 0xD ==> r.screen == m.screen
    ensures instr.FirstNibble() != 0xF ==>
      r.memory == m.memory && r.delayTimer == m.delayTimer && r.soundTimer == m.soundTimer
  {
    Execute(MainTable(instr.FirstNibble()), m, instr, random)
  }

  /** The instruction at pc can be fetched and then run without a panic. */
  predicate CanStep(m: Machine)
  {
    CanFetch(m) && Safe(Fetch(m).1, Fetch(m).0)
  }

  /** The condition under which a skip instruction of family 3, 4, 5, 9 or E
      jumps over the next instruction. */
  predicate SkipTaken(m: Machine, instr: Instruction)
  {
    match instr.FirstNibble()
    case 0x3 => m.v[instr.X()] == instr.Kk()
    case 0x4 => m.v[instr.X()] != instr.Kk()
    case 0x5 => m.v[instr.X()] == m.v[instr.Y()]
    case 0x9 => m.v[instr.X()] != m.v[instr.Y()]
    case 0xE =>
      || (instr.Kk() == 0x9E && m.v[instr.X()] in m.input)
      || (instr.Kk() == 0xA1 && m.v[instr.X()] !in m.input)
    case _ => false
  }

  /** Where a handler leaves pc, which `fetch` has already moved past the
      instruction: on it for the straight-line families, two further when a
      skip is taken, at the target for the jumps and the call, at the popped
      address for 00EE, and two back while Fx0A waits for a key. */
  lemma ExecuteCounter(m: Machine, instr: Instruction, random: Byte)
    requires Safe(m, instr)
    ensures instr.FirstNibble() in {0x6, 0x7, 0x8, 0xA, 0xC, 0xD} ==>
      DecodeAndExecute(m, instr, random).pc == m.pc
    ensures instr.FirstNibble() in {0x3, 0x4, 0x5, 0x9, 0xE} ==>
      DecodeAndExecute(m, instr, random).pc.value == m.pc.value + (if SkipTaken(m, instr) then 2 else 0)
    ensures instr.FirstNibble() in {0x1, 0x2} ==> DecodeAndExecute(m, instr, random).pc.value == instr.Nnn()
    ensures instr.FirstNibble() == 0x2 ==> DecodeAndExecute(m, instr, random).stack == m.stack + [m.pc.value]
    ensures instr.FirstNibble() == 0xB ==>
      DecodeAndExecute(m, instr, random).pc.value ==
        if m.c48Mode then instr.Kk() + m.v[instr.X()] else instr.Nnn() + m.v[0]
    ensures instr.FirstNibble() == 0x0 ==>
      DecodeAndExecute(m, instr, random).pc.value == if instr.Kk() == 0xEE then Pop(m.stack).0 else m.pc.value
    ensures instr.FirstNibble() == 0xF ==>
      DecodeAndExecute(m, instr, random).pc.value ==
        if instr.Kk() == 0x0A && |m.input| == 0 then m.pc.value - 2 else m.pc.value
  {
    match instr.FirstNibble() {
      case 0xF =>
        if instr.Kk() == 0x0A {
        }
      case _ =>
    }
  }

  /** `run_instruction`: fetch (moving pc past the instruction), then execute.
      Where pc ends up: two bytes on for the straight-line families, four when a
      skip is taken, the target for the jumps and the call, the popped address
      for 00EE, and back on the instruction itself while Fx0A waits for a key. */
  function Step(m: Machine, random: Byte): (r: Machine)
    requires CanStep(m)
    ensures r.c48Mode == m.c48Mode && r.input == m.input
    ensures Fetch(m).0.FirstNibble() in {0x6, 0x7, 0x8, 0xA, 0xC, 0xD} ==>
      r.pc.value == m.pc.value + 2
    ensures Fetch(m).0.FirstNibble() in {0x3, 0x4, 0x5, 0x9, 0xE} ==>
      r.pc.value == m.pc.value + (if SkipTaken(m, Fetch(m).0) then 4 else 2)
    ensures Fetch(m).0.FirstNibble() in {0x1, 0x2} ==> r.pc.value == Fetch(m).0.Nnn()
    ensures Fetch(m).0.FirstNibble() == 0x2 ==> r.stack == m.stack + [m.pc.value + 2]
    ensures Fetch(m).0.FirstNibble() == 0xB ==>
      r.pc.value == if m.c48Mode then Fetch(m).0.Kk() + m.v[Fetch(m).0.X()] else Fetch(m).0.Nnn() + m.v[0]
    ensures Fetch(m).0.FirstNibble() == 0x0 ==>
      r.pc.value == if Fetch(m).0.Kk() == 0xEE then Pop(m.stack).0 else m.pc.value + 2
    ensures Fetch(m).0.FirstNibble() == 0xF ==>
      r.pc.value == if Fetch(m).0.Kk() == 0x0A && |m.input| == 0 then m.pc.value else m.pc.value + 2
    ensures Fetch(m).0.FirstNibble() != 0xF ==>
      r.memory == m.memory && r.delayTimer == m.delayTimer && r.soundTimer == m.soundTimer
  {
    var (instr, fetched) := Fetch(m);
    ExecuteCounter(fetched, instr, random);
    DecodeAndExecute(fetched, instr, random)
  }

  /** Families 0, 8, E and F ignore sub-codes they do not know. */
  lemma UnknownSubcodesIgnored(m: Machine, instr: Instruction, random: Byte)
    requires Safe(m, instr)
    ensures instr.FirstNibble() == 0x0 && instr.Kk() != 0xE0 && instr.Kk() != 0xEE ==>
      DecodeAndExecute(m, instr, random) == m
    ensures instr.FirstNibble() == 0x8 && !(instr.LastNibble() in {0x0, 0x1, 0x2, 0x3, 0x4, 0x5, 0x6, 0x7, 0xE}) ==>
      DecodeAndExecute(m, instr, random) == m
    ensures instr.FirstNibble() == 0xE && instr.Kk() != 0x9E && instr.Kk() != 0xA1 ==>
      DecodeAndExecute(m, instr, random) == m
    ensures instr.FirstNibble() == 0xF && !(instr.Kk() in {0x07, 0x0A, 0x15, 0x18, 0x1E, 0x29, 0x33, 0x55, 0x65}) ==>
      DecodeAndExecute(m, instr, random) == m
  {
  }

  /** With no key down, Fx0A spins: a step leaves pc on the same instruction. */
  lemma KeyWaitSpins(m: Machine, random: Byte)
    requires CanStep(m) && |m.input| == 0
    requires Fetch(m).0.FirstNibble() == 0xF && Fetch(m).0.Kk() == 0x0A
    ensures Step(m, random).pc == m.pc
    ensures Step(m, random).v[Fetch(m).0.X()] == 0
  {
  }
}
