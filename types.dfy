/** Machine words, faults and the value view of the CHIP-8 state (src/chip8.rs:9-29, 591-610). */
module ChipTypes {

  /** Rust's u8, u16 and i16, and the 4- and 12-bit operand fields of an opcode. */
  type Byte = x: int | 0 <= x < 0x100
  type Word = x: int | 0 <= x < 0x1_0000
  type I16 = x: int | -0x8000 <= x < 0x8000
  type Nibble = x: int | 0 <= x < 0x10
  type Addr = x: int | 0 <= x < 0x1000

  const MemorySize := 4096
  const RegisterCount := 16
  const ScreenWidth := 64
  const GfxSize := 64 * 32
  const StackSize := 16
  const KeyCount := 16
  /** Where `initialize` puts the font, and where `load` puts the program. */
  const FontOffset := 80
  const ProgramStart := 0x200
  /** VF, the flag register. */
  const Flag := 15

  /** The 16 glyphs 0-F, five rows of one byte each. */
  const FontSet: seq<Byte> := [
    0xF0, 0x90, 0x90, 0x90, 0xF0, // 0
    0x20, 0x60, 0x20, 0x20, 0x70, // 1
    0xF0, 0x10, 0xF0, 0x80, 0xF0, // 2
    0xF0, 0x10, 0xF0, 0x10, 0xF0, // 3
    0x90, 0x90, 0xF0, 0x10, 0x10, // 4
    0xF0, 0x80, 0xF0, 0x10, 0xF0, // 5
    0xF0, 0x80, 0xF0, 0x90, 0xF0, // 6
    0xF0, 0x10, 0x20, 0x40, 0x40, // 7
    0xF0, 0x90, 0xF0, 0x90, 0xF0, // 8
    0xF0, 0x90, 0xF0, 0x10, 0xF0, // 9
    0xF0, 0x90, 0xF0, 0x90, 0x90, // A
    0xE0, 0x90, 0xE0, 0x90, 0xE0, // B
    0xF0, 0x80, 0x80, 0x80, 0xF0, // C
    0xE0, 0x90, 0x90, 0x90, 0xE0, // D
    0xF0, 0x80, 0xF0, 0x80, 0xF0, // E
    0xF0, 0x80, 0xF0, 0x80, 0x80  // F
  ]

  /** Every way the interpreter panics: an explicit `panic!`/`unimplemented!`, an index
      out of bounds, or an arithmetic overflow (the code is built with overflow checks). */
  datatype Fault =
    | UnknownOpcode(opcode: Word)
    | Unimplemented(opcode: Word)
    | MemoryOutOfBounds(address: int)
    | StackUnderflow
    | StackOutOfBounds(index: int)
    | ScreenOutOfBounds(index: int)
    | KeyOutOfBounds(index: int)
    | RegisterOutOfBounds(index: int)
    | ArithmeticOverflow

  datatype Result<+T> = Ok(value: T) | Err(fault: Fault) {
    predicate IsFailure() { Err? }
    function PropagateFailure<U>(): Result<U> requires Err? { Err(fault) }
    function Extract(): T requires Ok? { value }
  }

  /** What a state-changing operation reports. */
  datatype Outcome = Success | Failure(fault: Fault)

  function OutcomeOf<T>(r: Result<T>): Outcome {
    if r.Ok? then Success else Failure(r.fault)
  }

  /** The whole `Chip8` struct as a value. */
  datatype Machine = Machine(
    opcode: Word,
    memory: seq<Byte>,
    v: seq<Byte>,
    i: I16,
    pc: Word,
    gfx: seq<Byte>,
    drawSema: bool,
    keySema: bool,
    delayTimer: Byte,
    soundTimer: Byte,
    stack: seq<Word>,
    sp: Byte,
    key: seq<Byte>)

  /** The fixed sizes of the struct's arrays. */
  predicate WellFormed(m: Machine) {
    |m.memory| == MemorySize && |m.v| == RegisterCount && |m.gfx| == GfxSize &&
    |m.stack| == StackSize && |m.key| == KeyCount
  }

  function Zeros(n: nat): (s: seq<Byte>)
    ensures |s| == n && forall k :: 0 <= k < n ==> s[k] == 0
  {
    seq(n, _ => 0)
  }

  /** u8 `&`, `|` and `^`. */
  function BitAnd(a: Byte, b: Byte): Byte { ((a as bv8) & (b as bv8)) as int }
  function BitOr(a: Byte, b: Byte): Byte { ((a as bv8) | (b as bv8)) as int }
  function BitXor(a: Byte, b: Byte): Byte { ((a as bv8) ^ (b as bv8)) as int }

  /** `c ^ 1` on a framebuffer cell: flips its lowest bit. */
  function Flip(c: Byte): (r: Byte)
    ensures r % 2 != c % 2 && r / 2 == c / 2
  {
    if c % 2 == 0 then c + 1 else c - 1
  }

  /** i16 `wrapping_add` of a sum that is already known to lie within one wrap. */
  function WrapI16(z: int): (r: I16)
    requires -0x1_0000 <= z < 0x1_8000
    ensures (r - z) % 0x1_0000 == 0
  {
    if z >= 0x8000 then z - 0x1_0000 else if z < -0x8000 then z + 0x1_0000 else z
  }
}
