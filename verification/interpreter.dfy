/** The pure parts of the host loop that drives the machine at 60 Hz: the timer
    tick, the keyboard-to-keypad map, the debug pause/step switches, and the
    sleep constant. The SDL window, audio queue and event pump are not modelled;
    the pressed scancodes and the key-up events arrive as parameters. */
module Interpreter {
  import opened Bits
  import opened Chip8
  import Config

  // ---------------------------------------------------------------- timers

  /** One tick of a timer: down by one, stopping at zero. */
  function Tick(t: Byte): (r: Byte)
    ensures t > 0 ==> r == t - 1
    ensures t == 0 ==> r == 0
  {
    if t > 0 then t - 1 else 0
  }

  /** `handle_timers`: both timers tick; the flag says whether the beep plays
      this tick, which it does while the sound timer was still non-zero. */
  function HandleTimers(m: Machine): (r: (Machine, bool))
    ensures r.0 == m.(delayTimer := r.0.delayTimer, soundTimer := r.0.soundTimer)
    ensures r.0.delayTimer == Tick(m.delayTimer) && r.0.soundTimer == Tick(m.soundTimer)
    ensures r.1 <==> m.soundTimer > 0
  {
    (m.(delayTimer := Tick(m.delayTimer), soundTimer := Tick(m.soundTimer)), m.soundTimer > 0)
  }

  /** The machine after n timer ticks with no instruction in between. */
  function Ticks(m: Machine, n: nat): Machine
  {
    if n == 0 then m else HandleTimers(Ticks(m, n - 1)).0
  }

  /** After n ticks each timer has counted down by n, stopping at zero, and
      nothing else has changed. */
  lemma {:induction false} TicksCountDown(m: Machine, n: nat)
    ensures Ticks(m, n) == m.(delayTimer := Ticks(m, n).delayTimer, soundTimer := Ticks(m, n).soundTimer)
    ensures Ticks(m, n).delayTimer == if m.delayTimer >= n then m.delayTimer - n else 0
    ensures Ticks(m, n).soundTimer == if m.soundTimer >= n then m.soundTimer - n else 0
  {
    if n > 0 {
      TicksCountDown(m, n - 1);
    }
  }

  /** A timer loaded with t (by Fx15 or Fx18) reaches zero after exactly t ticks,
      and the beep sounds on exactly the first t of them. */
  lemma SoundLastsItsCount(m: Machine, n: nat)
    ensures HandleTimers(Ticks(m, n)).1 <==> n < m.soundTimer
    ensures Ticks(m, m.soundTimer).soundTimer == 0 && Ticks(m, m.delayTimer).delayTimer == 0
  {
    TicksCountDown(m, n);
    TicksCountDown(m, m.soundTimer);
    TicksCountDown(m, m.delayTimer);
  }

  // ------------------------------------------------------------------ keys

  /** The SDL scancodes the interpreter looks at, and every other one. */
  datatype Scancode =
    | Num1 | Num2 | Num3 | Num4
    | Q | W | E | R
    | A | S | D | F
    | Y | X | C | V
    | P | End | PageDown
    | Other(code: int)

  /** The keypad value a scancode stands for in `register_pressed_keys`, laid
      out like the COSMAC VIP keypad (1 2 3 C / 4 5 6 D / 7 8 9 E / A 0 B F). */
  function KeyOf(sc: Scancode): (r: Config.Option<Nibble>)
    ensures r.None? <==> sc.Other? || sc == P || sc == End || sc == PageDown
  {
    match sc
    case Num1 => Config.Some(0x1)
    case Num2 => Config.Some(0x2)
    case Num3 => Config.Some(0x3)
    case Num4 => Config.Some(0xC)
    case Q => Config.Some(0x4)
    case W => Config.Some(0x5)
    case E => Config.Some(0x6)
    case R => Config.Some(0xD)
    case A => Config.Some(0x7)
    case S => Config.Some(0x8)
    case D => Config.Some(0x9)
    case F => Config.Some(0xE)
    case Y => Config.Some(0xA)
    case X => Config.Some(0x0)
    case C => Config.Some(0xB)
    case V => Config.Some(0xF)
    case _ => Config.None
  }

  /** The keyboard key for each keypad value: the inverse of `KeyOf`. */
  function ScancodeOf(key: Nibble): (sc: Scancode)
    ensures KeyOf(sc) == Config.Some(key)
  {
    match key
    case 0x0 => X
    case 0x1 => Num1
    case 0x2 => Num2
    case 0x3 => Num3
    case 0x4 => Q
    case 0x5 => W
    case 0x6 => E
    case 0x7 => A
    case 0x8 => S
    case 0x9 => D
    case 0xA => Y
    case 0xB => C
    case 0xC => Num4
    case 0xD => R
    case 0xE => F
    case _ => Scancode.V
  }

  /** The map is a bijection between the sixteen mapped scancodes and the
      sixteen keypad values: every value has a key, and two keys never share one. */
  lemma KeyMapBijective()
    ensures forall key: Nibble :: KeyOf(ScancodeOf(key)) == Config.Some(key)
    ensures forall sc :: KeyOf(sc).Some? ==> ScancodeOf(KeyOf(sc).value) == sc
    ensures forall a, b :: KeyOf(a).Some? && KeyOf(a) == KeyOf(b) ==> a == b
  {
    forall sc | KeyOf(sc).Some?
      ensures ScancodeOf(KeyOf(sc).value) == sc
    {
      match sc
      case Num1 =>
      case Num2 =>
      case Num3 =>
      case Num4 =>
      case Q =>
      case W =>
      case E =>
      case R =>
      case A =>
      case S =>
      case D =>
      case F =>
      case Y =>
      case X =>
      case C =>
      case V =>
    }
  }

  /** The keypad values of the pressed scancodes, in order, skipping unmapped ones. */
  function PressedKeys(pressed: seq<Scancode>): (keys: seq<Byte>)
    ensures |keys| <= |pressed|
    ensures forall k :: 0 <= k < |keys| ==> keys[k] < 0x10
    ensures forall key :: key in keys <==> exists sc :: sc in pressed && KeyOf(sc) == Config.Some(key)
  {
    if |pressed| == 0 then []
    else
      var rest := PressedKeys(pressed[..|pressed| - 1]);
      var last := pressed[|pressed| - 1];
      assert forall sc :: sc in pressed <==> sc in pressed[..|pressed| - 1] || sc == last;
      match KeyOf(last)
      case Some(key) => rest + [key]
      case None => rest
  }

  /** `register_pressed_keys`: the input is cleared and refilled from the keys
      held down; nothing else changes. */
  function RegisterPressedKeys(m: Machine, pressed: seq<Scancode>): (r: Machine)
    ensures r == m.(input := r.input)
    ensures forall k :: 0 <= k < |r.input| ==> r.input[k] < 0x10
    ensures forall key :: key in r.input <==> exists sc :: sc in pressed && KeyOf(sc) == Config.Some(key)
  {
    m.(input := PressedKeys(pressed))
  }

  /** Holding the key for a keypad value makes that value visible to Ex9E and
      Fx0A, and with nothing held the input is empty. */
  lemma HeldKeyIsSeen(m: Machine, pressed: seq<Scancode>, key: Nibble)
    ensures ScancodeOf(key) in pressed ==> key in RegisterPressedKeys(m, pressed).input
    ensures |pressed| == 0 ==> RegisterPressedKeys(m, pressed).input == []
  {
  }

  // ----------------------------------------------------------------- debug

  /** The debugger's two switches. */
  datatype DebugState = DebugState(running: bool, stepExec: bool)

  /** The state `Interpreter::new` starts with: running, no single step pending. */
  const InitialDebug := DebugState(true, false)

  /** `is_paused`: in debug mode, stopped, and no single step requested. */
  predicate IsPaused(debugMode: bool, d: DebugState): (r: bool)
    ensures r ==> debugMode
    ensures d.running || d.stepExec ==> !r
    ensures debugMode && !d.running && !d.stepExec ==> r
  {
    debugMode && !d.running && !d.stepExec
  }

  /** `toggle_state`: flips between running and stopped. */
  function ToggleState(d: DebugState): (r: DebugState)
    ensures r.running == !d.running && r.stepExec == d.stepExec
  {
    d.(running := !d.running)
  }

  /** `reset_exec_step`: a pending single step is used up. */
  function ResetExecStep(d: DebugState): (r: DebugState)
    ensures !r.stepExec && r.running == d.running
  {
    if d.stepExec then d.(stepExec := false) else d
  }

  /** `handle_debug_input`: End toggles running; PageDown requests one step,
      but only while stopped; P only prints the machine, and other keys do
      nothing. */
  function HandleDebugInput(d: DebugState, sc: Scancode): (r: DebugState)
    ensures sc == End ==> r == ToggleState(d)
    ensures sc == PageDown ==> r.running == d.running && r.stepExec == (d.stepExec || !d.running)
    ensures sc != End && sc != PageDown ==> r == d
  {
    match sc
    case End => ToggleState(d)
    case PageDown => if d.running then d else d.(stepExec := true)
    case _ => d
  }

  /** A key released in the main loop reaches the debugger only in debug mode:
      there End toggles running and PageDown requests a step while stopped. */
  function OnKeyUp(debugMode: bool, d: DebugState, sc: Scancode): (r: DebugState)
    ensures !debugMode ==> r == d
    ensures debugMode ==> r == HandleDebugInput(d, sc)
    ensures debugMode && sc == End ==> r.running == !d.running && r.stepExec == d.stepExec
    ensures debugMode && sc == PageDown ==> r.running == d.running && r.stepExec == (d.stepExec || !d.running)
  {
    if debugMode then HandleDebugInput(d, sc) else d
  }

  /** Pressing End twice restores the debugger; outside debug mode the
      interpreter is never paused. */
  lemma ToggleTwice(d: DebugState, debugMode: bool)
    ensures HandleDebugInput(HandleDebugInput(d, End), End) == d
    ensures !IsPaused(false, d)
    ensures !IsPaused(debugMode, InitialDebug)
  {
  }

  /** While stopped, PageDown lets exactly one loop iteration through: the loop
      is no longer paused, and the reset at the end of that iteration pauses it
      again. While running, PageDown changes nothing. */
  lemma SingleStep(d: DebugState)
    requires !d.running
    ensures !IsPaused(true, HandleDebugInput(d, PageDown))
    ensures IsPaused(true, ResetExecStep(HandleDebugInput(d, PageDown)))
    ensures HandleDebugInput(d.(running := true), PageDown) == d.(running := true)
  {
  }

  // ----------------------------------------------------------------- pacing

  /** `SLEEP_TIME` as written: (100 / 60) * 10000 microseconds. Integer division
      makes 100 / 60 equal 1, so the value is 10000. */
  const SleepTime: nat := (100 / Config.MainLoopFrequency) * 10000

  /** At most SleepTime microseconds per iteration, the loop runs at up to
      100 iterations a second rather than the 60 the comment promises. */
  lemma SleepTimeAsWritten()
    ensures SleepTime == 10000
    ensures 1_000_000 / SleepTime == 100
    ensures 1_000_000 / SleepTime != Config.MainLoopFrequency
  {
  }

  /** The period of a 60 Hz loop, in whole microseconds. */
  const SleepTimeCorrected: nat := 1_000_000 / Config.MainLoopFrequency

  /** The corrected period is the longest whole-microsecond pause that still
      fits 60 iterations into a second. */
  lemma SleepTimeCorrectedIsPeriod()
    ensures SleepTimeCorrected == 16666
    ensures Config.MainLoopFrequency * SleepTimeCorrected <= 1_000_000
    ensures Config.MainLoopFrequency * (SleepTimeCorrected + 1) > 1_000_000
  {
  }

  /** `handle_loop_sync`'s pause: what is left of the period after `elapsed`
      microseconds of work, or nothing when the work overran it (the failed
      `checked_sub` becomes 0). */
  function SleepFor(period: nat, elapsed: nat): (r: nat)
    ensures elapsed <= period ==> r + elapsed == period
    ensures elapsed > period ==> r == 0
  {
    if elapsed <= period then period - elapsed else 0
  }
}
