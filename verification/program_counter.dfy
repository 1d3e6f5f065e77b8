/** The program counter: a 16-bit cursor with set, step and conditional step.

    `increment` and `decrement_if` use Rust's checked `+=`/`-=` on `u16`, which
    panic on overflow; those panics are preconditions here. */
module ProgramCounters {
  import opened Bits

  datatype ProgramCounter = ProgramCounter(value: Word) {

    /** `set_to`: afterwards `value()` reports exactly v. */
    function SetTo(v: Word): (r: ProgramCounter)
      ensures r.Value() == v
    {
      ProgramCounter(v)
    }

    function Value(): Word
    {
      value
    }

    /** `increment`: one instruction forward. */
    function Increment(): (r: ProgramCounter)
      requires value <= 0xFFFD
      ensures r.value > value && r.value - value == 2
    {
      ProgramCounter(value + 2)
    }

    /** `increment_if`: steps forward only when the condition holds. */
    function IncrementIf(condition: bool): (r: ProgramCounter)
      requires condition ==> value <= 0xFFFD
      ensures !condition ==> r == this
      ensures condition ==> r == Increment()
    {
      if condition then Increment() else this
    }

    /** `decrement_if`: steps back one instruction only when the condition holds. */
    function DecrementIf(condition: bool): (r: ProgramCounter)
      requires condition ==> value >= 2
      ensures !condition ==> r == this
      ensures condition ==> r.value < value && value - r.value == 2
    {
      if condition then ProgramCounter(value - 2) else this
    }
  }

  /** `new_with_value`. */
  function NewWithValue(v: Word): (pc: ProgramCounter)
    ensures pc.Value() == v
  {
    ProgramCounter(v)
  }

  /** A conditional step back undoes a step forward, and the other way round. */
  lemma DecrementUndoesIncrement(pc: ProgramCounter)
    ensures pc.value <= 0xFFFD ==> pc.Increment().DecrementIf(true) == pc
    ensures pc.value >= 2 ==> pc.DecrementIf(true).Increment() == pc
  {
  }

  /** The unit test's walk 10, 11, 13, 15, 15: nothing keeps the counter even. */
  lemma CounterWalkExample()
    ensures NewWithValue(10).Value() == 10
    ensures NewWithValue(10).SetTo(11).Value() == 11
    ensures NewWithValue(10).SetTo(11).Increment().Value() == 13
    ensures NewWithValue(10).SetTo(11).Increment().IncrementIf(true).Value() == 15
    ensures NewWithValue(10).SetTo(11).Increment().IncrementIf(true).DecrementIf(false).Value() == 15
  {
  }
}
