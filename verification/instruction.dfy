/** The instruction decoder: a read-only view of one raw 16-bit word.

    The source extracts each field with a mask and a right shift
    (`(raw & 0x0F00) >> 8`); on an unsigned word that is the same number as
    division and remainder by powers of two, which is how the fields are written here. */
module Instructions {
  import opened Bits

  datatype Instruction = Instruction(raw: Word) {

    /** `to_raw_instr`: the undecoded word. */
    function ToRawInstr(): (r: Word)
      ensures Instruction(r) == this
    {
      raw
    }

    /** `(raw & 0xF000) >> 12`: the opcode family, the top four bits. */
    function FirstNibble(): (r: Nibble)
      ensures r * 0x1000 <= raw < (r + 1) * 0x1000
    {
      raw / 0x1000
    }

    /** `raw & 0xF`: the bottom four bits. */
    function LastNibble(): (r: Nibble)
      ensures (raw - r) % 0x10 == 0
    {
      raw % 0x10
    }

    /** `(raw & 0x0F00) >> 8`: the first register index, the top four bits
        of the address field. */
    function X(): (r: Nibble)
      ensures r * 0x100 <= raw % 0x1000 < (r + 1) * 0x100
    {
      (raw / 0x100) % 0x10
    }

    /** `(raw & 0x00F0) >> 4`: the second register index, the top four bits
        of the immediate byte. */
    function Y(): (r: Nibble)
      ensures r * 0x10 <= raw % 0x100 < (r + 1) * 0x10
    {
      (raw / 0x10) % 0x10
    }

    /** Both register indices at once; the first component agrees with `X()`. */
    function XY(): (r: (Nibble, Nibble))
      ensures r.0 == X() && r.1 == Y()
    {
      ((raw / 0x100) % 0x10, (raw / 0x10) % 0x10)
    }

    /** `raw & 0x0FFF`: the 12-bit address field. */
    function Nnn(): (r: Word)
      ensures r < 0x1000
    {
      raw % 0x1000
    }

    /** `raw & 0x00FF`: the 8-bit immediate field, the bottom eight bits. */
    function Kk(): (r: Byte)
      ensures (raw - r) % 0x100 == 0
    {
      raw % 0x100
    }
  }

  /** `new_from_bytes`: the two bytes read as a big-endian word. The first byte
      is the high byte and supplies the family and X; the second byte is kk. */
  function NewFromBytes(b1: Byte, b2: Byte): (instr: Instruction)
    ensures instr.raw / 0x100 == b1
    ensures instr.FirstNibble() * 0x10 + instr.X() == b1
    ensures instr.Kk() == b2
  {
    Instruction(b1 * 0x100 + b2)
  }

  /** The inverse of decoding: the instruction with the given four nibbles. */
  function FromNibbles(f: Nibble, x: Nibble, y: Nibble, n: Nibble): Instruction
  {
    Instruction(f * 0x1000 + x * 0x100 + y * 0x10 + n)
  }

  /** The fields of a raw word reassemble to it in each of the three ways the
      opcode table reads it: four nibbles, family and address, high byte and kk. */
  lemma Reassemble(instr: Instruction)
    ensures instr.raw == instr.FirstNibble() * 0x1000 + instr.X() * 0x100 + instr.Y() * 0x10 + instr.LastNibble()
    ensures instr.raw == instr.FirstNibble() * 0x1000 + instr.Nnn()
    ensures instr.raw == (instr.raw / 0x100) * 0x100 + instr.Kk()
    ensures instr.Nnn() == instr.X() * 0x100 + instr.Kk()
    ensures instr.Kk() == instr.Y() * 0x10 + instr.LastNibble()
  {
    var raw, f := instr.raw, instr.raw / 0x1000;
    var nnn, kk := raw % 0x1000, raw % 0x100;
    var hi, mid := raw / 0x100, raw / 0x10;
    // nnn = x * 0x100 + kk, and the high byte is f * 0x10 + x
    assert nnn == (nnn / 0x100) * 0x100 + nnn % 0x100;
    DivModUnique(raw, 0x100, f * 0x10 + nnn / 0x100, nnn % 0x100);
    DivModUnique(hi, 0x10, f, nnn / 0x100);
    // kk = y * 0x10 + last, and raw / 0x10 = hi * 0x10 + y
    DivModUnique(raw, 0x10, hi * 0x10 + kk / 0x10, kk % 0x10);
    DivModUnique(mid, 0x10, hi, kk / 0x10);
  }

  /** Decoding after encoding gives back every nibble. */
  lemma DecodeFromNibbles(f: Nibble, x: Nibble, y: Nibble, n: Nibble)
    ensures FromNibbles(f, x, y, n).FirstNibble() == f
    ensures FromNibbles(f, x, y, n).X() == x
    ensures FromNibbles(f, x, y, n).Y() == y
    ensures FromNibbles(f, x, y, n).LastNibble() == n
  {
    var raw := f * 0x1000 + x * 0x100 + y * 0x10 + n;
    DivModUnique(raw, 0x1000, f, x * 0x100 + y * 0x10 + n);
    DivModUnique(raw, 0x100, f * 0x10 + x, y * 0x10 + n);
    DivModUnique(f * 0x10 + x, 0x10, f, x);
    DivModUnique(raw, 0x10, f * 0x100 + x * 0x10 + y, n);
    DivModUnique(f * 0x100 + x * 0x10 + y, 0x10, f * 0x10 + x, y);
  }

  /** Encoding the decoded nibbles gives back the instruction. */
  lemma EncodeDecodedNibbles(instr: Instruction)
    ensures FromNibbles(instr.FirstNibble(), instr.X(), instr.Y(), instr.LastNibble()) == instr
  {
    Reassemble(instr);
  }

  /** The unit test's bytes 0x12 0x34. */
  lemma DecodesExample()
    ensures NewFromBytes(0x12, 0x34).ToRawInstr() == 0x1234
    ensures NewFromBytes(0x12, 0x34).FirstNibble() == 0x1
    ensures NewFromBytes(0x12, 0x34).LastNibble() == 0x4
    ensures NewFromBytes(0x12, 0x34).X() == 0x2
    ensures NewFromBytes(0x12, 0x34).XY() == (0x2, 0x3)
    ensures NewFromBytes(0x12, 0x34).Nnn() == 0x234
    ensures NewFromBytes(0x12, 0x34).Kk() == 0x34
  {
  }
}
