/** Concrete runs of the interpreter: the source's own unit tests for
    `decode_and_execute`, and a short program run from power-on.

    Each scenario is stated for every machine that has the few properties the
    run depends on; `PowerOnMeetsScenarios` shows that a freshly built machine
    has them, which gives back the source's tests, which all start from
    `Chip8::new(false)`. */
module Scenarios {
  import opened Bits
  import opened Instructions
  import opened Display
  import opened Chip8
  import opened Operations

  /** 6542 loads V5; 8650 then copies V5 into V6. */
  lemma SetRegisterScenario(m: Machine, random: Byte)
    ensures DecodeAndExecute(m, NewFromBytes(0x65, 0x42), random).v[5] == 0x42
    ensures DecodeAndExecute(DecodeAndExecute(m, NewFromBytes(0x65, 0x42), random),
                             NewFromBytes(0x86, 0x50), random).v[6] == 0x42
  {
    var load, copy := NewFromBytes(0x65, 0x42), NewFromBytes(0x86, 0x50);
    assert load.FirstNibble() == 6 && load.X() == 5 && load.Kk() == 0x42;
    assert copy.FirstNibble() == 8 && copy.X() == 6 && copy.Y() == 5 && copy.LastNibble() == 0;
    var m1 := DecodeAndExecute(m, load, random);
    assert m1 == Op6xkk(m, load);
    assert DecodeAndExecute(m1, copy, random) == Op8xy0(m1, copy);
  }

  /** After 650A, with key A down, E59E skips: pc goes from 0x200 to 0x202. */
  lemma PressedKeyScenario(m: Machine, random: Byte)
    requires m.pc.value == 0x200
    ensures DecodeAndExecute(m, NewFromBytes(0x65, 0x0A), random).v[5] == 0x0A
    ensures
      var m1 := DecodeAndExecute(m, NewFromBytes(0x65, 0x0A), random);
      var pressed := m1.(input := m1.input + [0x0A]);
      Safe(pressed, NewFromBytes(0xE5, 0x9E))
      && DecodeAndExecute(pressed, NewFromBytes(0xE5, 0x9E), random).pc.value == 0x202
  {
    var load, skip := NewFromBytes(0x65, 0x0A), NewFromBytes(0xE5, 0x9E);
    assert load.FirstNibble() == 6 && load.X() == 5 && load.Kk() == 0x0A;
    assert skip.FirstNibble() == 0xE && skip.X() == 5 && skip.Kk() == 0x9E;
    var m1 := DecodeAndExecute(m, load, random);
    assert m1 == Op6xkk(m, load);
    var pressed := m1.(input := m1.input + [0x0A]);
    assert pressed.v[5] in pressed.input;
    assert DecodeAndExecute(pressed, skip, random) == OpTableE(pressed, skip);
  }

  /** F133 with V1 = 0x7B = 123 and I = 0x666 stores the digits 1, 2, 3 there. */
  lemma StoreDigitsScenario(m: Machine, random: Byte)
    requires m.v[1] == 0x7B && m.i == 0x666
    ensures Safe(m, NewFromBytes(0xF1, 0x33))
    ensures
      var r := DecodeAndExecute(m, NewFromBytes(0xF1, 0x33), random);
      r.memory[0x666] == 1 && r.memory[0x667] == 2 && r.memory[0x668] == 3
  {
    var bcd := NewFromBytes(0xF1, 0x33);
    assert bcd.FirstNibble() == 0xF && bcd.X() == 1 && bcd.Kk() == 0x33;
    assert DecodeAndExecute(m, bcd, random) == OpFx33(m, bcd);
  }

  /** 617B, A666, F133 store the digits 1, 2, 3 of 0x7B = 123 at 0x666. */
  lemma DecimalDigitsScenario(m: Machine, random: Byte)
    ensures
      var m1 := DecodeAndExecute(m, NewFromBytes(0x61, 0x7B), random);
      var m2 := DecodeAndExecute(m1, NewFromBytes(0xA6, 0x66), random);
      && m1.v[1] == 0x7B
      && m2.i == 0x666
      && Safe(m2, NewFromBytes(0xF1, 0x33))
      && var m3 := DecodeAndExecute(m2, NewFromBytes(0xF1, 0x33), random);
         m3.memory[0x666] == 1 && m3.memory[0x667] == 2 && m3.memory[0x668] == 3
  {
    var load, index := NewFromBytes(0x61, 0x7B), NewFromBytes(0xA6, 0x66);
    assert load.FirstNibble() == 6 && load.X() == 1 && load.Kk() == 0x7B;
    assert index.FirstNibble() == 0xA && index.Nnn() == 0x666;
    var m1 := DecodeAndExecute(m, load, random);
    assert m1 == Op6xkk(m, load);
    var m2 := DecodeAndExecute(m1, index, random);
    assert m2 == OpAnnn(m1, index);
    StoreDigitsScenario(m2, random);
  }

  /** Bit k of 0b0101_0101 is set exactly for even k. */
  lemma BitsOf55(k: nat)
    requires k < 8
    ensures Bit(0x55, k) <==> k % 2 == 0
  {
    assert Bit(0x55, 0) && !Bit(0x55, 1) && Bit(0x55, 2) && !Bit(0x55, 3);
    assert Bit(0x55, 4) && !Bit(0x55, 5) && Bit(0x55, 6) && !Bit(0x55, 7);
  }

  /** The three instructions before the draw: 6001, 6101, A661. */
  lemma DrawSetupScenario(m: Machine, random: Byte)
    ensures
      var m1 := DecodeAndExecute(m, NewFromBytes(0x60, 0x01), random);
      var m2 := DecodeAndExecute(m1, NewFromBytes(0x61, 0x01), random);
      var m3 := DecodeAndExecute(m2, NewFromBytes(0xA6, 0x66), random);
      && m1.v[0] == 1 && m2.v[1] == 1 && m3.i == 0x666
      && m3.v[0] == 1 && m3.v[1] == 1 && m3.screen == m.screen
  {
    var l0, l1 := NewFromBytes(0x60, 0x01), NewFromBytes(0x61, 0x01);
    var index := NewFromBytes(0xA6, 0x66);
    assert l0.FirstNibble() == 6 && l0.X() == 0 && l0.Kk() == 1;
    assert l1.FirstNibble() == 6 && l1.X() == 1 && l1.Kk() == 1;
    assert index.FirstNibble() == 0xA && index.Nnn() == 0x666;
    var m1 := DecodeAndExecute(m, l0, random);
    assert m1 == Op6xkk(m, l0);
    var m2 := DecodeAndExecute(m1, l1, random);
    assert m2 == Op6xkk(m1, l1);
    assert DecodeAndExecute(m2, index, random) == OpAnnn(m2, index);
  }

  /** With V0 = V1 = 1 and the byte 0b0101_0101 at I, D011 on a blank display
      draws one row at column 1, row 1: cells 65 to 72 alternate dark and lit. */
  lemma DrawRowScenario(m: Machine, random: Byte)
    requires m.v[0] == 1 && m.v[1] == 1 && m.i == 0x666 && m.memory[0x666] == 0x55
    requires forall p :: 0 <= p < Size ==> !m.screen.display[p]
    ensures Safe(m, NewFromBytes(0xD0, 0x11))
    ensures forall p :: 65 <= p <= 72 ==>
      DecodeAndExecute(m, NewFromBytes(0xD0, 0x11), random).screen.display[p] == (p % 2 == 0)
  {
    var draw := NewFromBytes(0xD0, 0x11);
    assert draw.FirstNibble() == 0xD && draw.X() == 0 && draw.Y() == 1 && draw.LastNibble() == 1;
    var sprite := SpriteRows(m, 1);
    assert sprite == [0x55];
    assert DrawColumn(m, draw) == 1 && DrawRow(m, draw) == 1;
    var r := DecodeAndExecute(m, draw, random);
    assert r == OpDxyn(m, draw);
    forall p | 65 <= p <= 72
      ensures r.screen.display[p] == (p % 2 == 0)
    {
      CoveredIffHit(sprite, 1, 1, p);
      BitsOf55(7 - (p - 65));
    }
  }

  /** The whole draw test: set-up, the byte poked into memory, then D011. */
  lemma DrawScenario(m: Machine, random: Byte)
    requires forall p :: 0 <= p < Size ==> !m.screen.display[p]
    ensures
      var m1 := DecodeAndExecute(m, NewFromBytes(0x60, 0x01), random);
      var m2 := DecodeAndExecute(m1, NewFromBytes(0x61, 0x01), random);
      var m3 := DecodeAndExecute(m2, NewFromBytes(0xA6, 0x66), random);
      var m4 := m3.(memory := m3.memory[0x666 := 0x55]);
      && Safe(m4, NewFromBytes(0xD0, 0x11))
      && forall p :: 65 <= p <= 72 ==>
           DecodeAndExecute(m4, NewFromBytes(0xD0, 0x11), random).screen.display[p] == (p % 2 == 0)
  {
    DrawSetupScenario(m, random);
    var m1 := DecodeAndExecute(m, NewFromBytes(0x60, 0x01), random);
    var m2 := DecodeAndExecute(m1, NewFromBytes(0x61, 0x01), random);
    var m3 := DecodeAndExecute(m2, NewFromBytes(0xA6, 0x66), random);
    DrawRowScenario(m3.(memory := m3.memory[0x666 := 0x55]), random);
  }

  /** The program used by `ProgramScenario`, with the zero word after it. */
  const Program: seq<Byte> := [0x60, 0x05, 0x70, 0x03, 0x30, 0x08, 0x60, 0x63]

  /** The instruction fetched at pc is the big-endian pair of bytes stored there. */
  lemma FetchAt(m: Machine, b1: Byte, b2: Byte)
    requires CanFetch(m) && m.memory[m.pc.value] == b1 && m.memory[m.pc.value + 1] == b2
    ensures Fetch(m).0 == NewFromBytes(b1, b2)
  {
  }

  /** A machine whose pc is `at` with the program and a zero word at 0x200. */
  predicate ProgramLoadedAt(m: Machine, at: Word)
  {
    m.pc.value == at && m.memory[0x200 .. 0x20A] == Program + [0, 0]
  }

  /** Step 1: 6005 sets V0 to 5. */
  lemma ProgramStep1(m: Machine, random: Byte)
    requires ProgramLoadedAt(m, 0x200)
    ensures CanStep(m) && ProgramLoadedAt(Step(m, random), 0x202) && Step(m, random).v[0] == 5
  {
    assert m.memory[0x200] == (Program + [0, 0])[0] && m.memory[0x201] == (Program + [0, 0])[1];
    FetchAt(m, 0x60, 0x05);
    var (instr, fetched) := Fetch(m);
    assert instr.FirstNibble() == 6 && instr.X() == 0 && instr.Kk() == 5;
    assert Step(m, random) == Op6xkk(fetched, instr);
  }

  /** Step 2: 7003 adds 3 to V0. */
  lemma ProgramStep2(m: Machine, random: Byte)
    requires ProgramLoadedAt(m, 0x202) && m.v[0] == 5
    ensures CanStep(m) && ProgramLoadedAt(Step(m, random), 0x204) && Step(m, random).v[0] == 8
  {
    assert m.memory[0x202] == (Program + [0, 0])[2] && m.memory[0x203] == (Program + [0, 0])[3];
    FetchAt(m, 0x70, 0x03);
    var (instr, fetched) := Fetch(m);
    assert instr.FirstNibble() == 7 && instr.X() == 0 && instr.Kk() == 3;
    assert Step(m, random) == Op7xkk(fetched, instr);
  }

  /** Step 3: 3008 finds V0 == 8 and skips 6063. */
  lemma ProgramStep3(m: Machine, random: Byte)
    requires ProgramLoadedAt(m, 0x204) && m.v[0] == 8
    ensures CanStep(m) && ProgramLoadedAt(Step(m, random), 0x208) && Step(m, random).v[0] == 8
  {
    assert m.memory[0x204] == (Program + [0, 0])[4] && m.memory[0x205] == (Program + [0, 0])[5];
    FetchAt(m, 0x30, 0x08);
    var (instr, fetched) := Fetch(m);
    assert instr.FirstNibble() == 3 && instr.X() == 0 && instr.Kk() == 8;
    assert Step(m, random) == Op3xkk(fetched, instr);
  }

  /** Step 4: the zero word is an unknown family-0 instruction and only moves pc on. */
  lemma ProgramStep4(m: Machine, random: Byte)
    requires ProgramLoadedAt(m, 0x208)
    ensures CanStep(m) && ProgramLoadedAt(Step(m, random), 0x20A) && Step(m, random).v == m.v
  {
    assert m.memory[0x208] == (Program + [0, 0])[8] && m.memory[0x209] == (Program + [0, 0])[9];
    FetchAt(m, 0x00, 0x00);
    var (instr, fetched) := Fetch(m);
    assert instr.FirstNibble() == 0 && instr.Kk() == 0;
    assert Step(m, random) == OpTable0(fetched, instr);
  }

  /** The program 6005 7003 3008 6063 at 0x200, followed by a zero word: V0
      becomes 5, then 8; the 3008 skip jumps over 6063, and the zero word
      is ignored. */
  lemma ProgramScenario(m0: Machine, r1: Byte, r2: Byte, r3: Byte, r4: Byte)
    requires ProgramLoadedAt(m0, 0x200)
    ensures
      && CanStep(m0)
      && var m1 := Step(m0, r1);
      && m1.v[0] == 5 && CanStep(m1)
      && var m2 := Step(m1, r2);
      && m2.v[0] == 8 && CanStep(m2)
      && var m3 := Step(m2, r3);
      && m3.v[0] == 8 && m3.pc.value == 0x208 && CanStep(m3)
      && var m4 := Step(m3, r4);
      m4.v[0] == 8 && m4.pc.value == 0x20A
  {
    ProgramStep1(m0, r1);
    var m1 := Step(m0, r1);
    ProgramStep2(m1, r2);
    var m2 := Step(m1, r2);
    ProgramStep3(m2, r3);
    var m3 := Step(m2, r3);
    ProgramStep4(m3, r4);
  }

  /** Loading the program at 0x200, with two zero bytes after where it ends,
      sets a machine up for `ProgramScenario`. */
  lemma LoadedProgramMeetsScenario(m: Machine)
    requires m.pc.value == 0x200 && m.memory[0x208] == 0 && m.memory[0x209] == 0
    ensures ProgramLoadedAt(LoadProgram(m, Program), 0x200)
  {
    var r := LoadProgram(m, Program);
    var code := Program + [0, 0];
    forall k | 0 <= k < 10
      ensures r.memory[0x200 + k] == code[k]
    {
      if k < 8 {
        assert r.memory[ProgramStart + k] == Program[k];
      }
    }
    assert r.memory[0x200 .. 0x20A] == code;
  }

  /** A machine just built meets the requirements the scenarios above make:
      pc at 0x200, a blank display, and zero bytes at 0x208 and 0x209. */
  lemma PowerOnMeetsScenarios(c48Mode: bool)
    ensures New(c48Mode).pc.value == 0x200
    ensures forall p :: 0 <= p < Size ==> !New(c48Mode).screen.display[p]
    ensures New(c48Mode).memory[0x208] == 0 && New(c48Mode).memory[0x209] == 0
  {
  }
}
