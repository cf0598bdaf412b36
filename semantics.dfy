/** What one call of each `Chip8` method does, as functions on the value view of the state:
    the specification that the class in engine.dfy is proved against (src/chip8.rs). */
module Semantics {
  import opened ChipTypes
  import opened Opcodes

  /** The state `new` builds: everything zero (src/chip8.rs:34-50). */
  function NewMachine(): (m: Machine)
    ensures WellFormed(m) && m.opcode == 0 && m.pc == 0 && m.i == 0 && m.sp == 0
    ensures m.delayTimer == 0 && m.soundTimer == 0 && !m.drawSema && !m.keySema
    ensures forall a :: 0 <= a < MemorySize ==> m.memory[a] == 0
    ensures forall p :: 0 <= p < GfxSize ==> m.gfx[p] == 0
    ensures forall k :: 0 <= k < RegisterCount ==> m.v[k] == 0
    ensures forall k :: 0 <= k < StackSize ==> m.stack[k] == 0
    ensures forall k :: 0 <= k < KeyCount ==> m.key[k] == 0
  {
    Machine(0, Zeros(MemorySize), Zeros(RegisterCount), 0, 0, Zeros(GfxSize), false, false,
            0, 0, Zeros(StackSize), 0, Zeros(KeyCount))
  }

  /** Memory as `initialize` leaves it: the font at FontOffset and zero everywhere else. */
  function FontMemory(): (s: seq<Byte>)
    ensures |s| == MemorySize
  {
    Zeros(FontOffset) + FontSet + Zeros(MemorySize - FontOffset - |FontSet|)
  }

  /** Memory that holds the font at FontOffset and zero elsewhere is FontMemory(). */
  lemma FontMemoryByElements(s: seq<Byte>)
    requires |s| == MemorySize
    requires forall a :: 0 <= a < MemorySize ==> s[a] == if FontOffset <= a < FontOffset + |FontSet| then FontSet[a - FontOffset] else 0
    ensures s == FontMemory()
  {
  }

  /** `initialize` (src/chip8.rs:55-94). The timers and the two semaphores are not reset. */
  function Initialized(m: Machine): (r: Machine)
    ensures WellFormed(r) && r.opcode == 0 && r.pc == ProgramStart && r.i == 0 && r.sp == 0
    ensures r.memory == FontMemory()
    ensures r.delayTimer == m.delayTimer && r.soundTimer == m.soundTimer
    ensures r.drawSema == m.drawSema && r.keySema == m.keySema
    ensures forall p :: 0 <= p < GfxSize ==> r.gfx[p] == 0
    ensures forall k :: 0 <= k < RegisterCount ==> r.v[k] == 0
    ensures forall k :: 0 <= k < StackSize ==> r.stack[k] == 0
    ensures forall k :: 0 <= k < KeyCount ==> r.key[k] == 0
  {
    m.(pc := ProgramStart, opcode := 0, i := 0, sp := 0, gfx := Zeros(GfxSize),
       stack := Zeros(StackSize), v := Zeros(RegisterCount), key := Zeros(KeyCount),
       memory := FontMemory())
  }

  /** The memory after the copy loop of `load` has run over as much of the ROM as fits
      (src/chip8.rs:114-116). */
  function LoadedMemory(memory: seq<Byte>, rom: seq<Byte>): (s: seq<Byte>)
    requires |memory| == MemorySize
    ensures |s| == MemorySize
    ensures forall k :: 0 <= k < |rom| && ProgramStart + k < MemorySize ==> s[ProgramStart + k] == rom[k]
    ensures forall a :: 0 <= a < MemorySize && !(ProgramStart <= a < ProgramStart + |rom|) ==> s[a] == memory[a]
  {
    seq(MemorySize, a requires 0 <= a < MemorySize => if ProgramStart <= a < ProgramStart + |rom| then rom[a - ProgramStart] else memory[a])
  }

  /** Whether the copy loop of `load` panics: the first byte that does not fit is written
      to index 4096. */
  function LoadOutcome(rom: seq<Byte>): (o: Outcome)
    ensures o == Success <==> |rom| <= MemorySize - ProgramStart
    ensures o.Failure? ==> o.fault == MemoryOutOfBounds(MemorySize)
  {
    if ProgramStart + |rom| > MemorySize then Failure(MemoryOutOfBounds(MemorySize)) else Success
  }

  /** The big-endian opcode at address a. */
  function OpcodeAt(memory: seq<Byte>, a: int): Word
    requires 0 <= a && a + 1 < |memory|
  {
    memory[a] as int * 0x100 + memory[a + 1]
  }

  /** The fetch at the top of `emulate_cycle` (src/chip8.rs:130). */
  function Fetch(m: Machine): (r: Result<Word>)
    requires WellFormed(m)
    ensures r.Ok? <==> m.pc + 1 < MemorySize
    ensures r.Ok? ==> r.value == OpcodeAt(m.memory, m.pc)
    ensures r.Err? ==> r.fault == MemoryOutOfBounds(if m.pc < MemorySize then m.pc + 1 else m.pc)
  {
    if m.pc >= MemorySize then Err(MemoryOutOfBounds(m.pc))
    else if m.pc + 1 >= MemorySize then Err(MemoryOutOfBounds(m.pc + 1))
    else Ok(m.memory[m.pc] as int * 0x100 + m.memory[m.pc + 1])
  }

  /** The timer tick at the end of `emulate_cycle` (src/chip8.rs:552-557). */
  function Tick(m: Machine): (r: Machine)
    ensures r == m.(delayTimer := r.delayTimer, soundTimer := r.soundTimer)
    ensures r.delayTimer == if m.delayTimer == 0 then 0 else m.delayTimer - 1
    ensures r.soundTimer == if m.soundTimer == 0 then 0 else m.soundTimer - 1
  {
    m.(delayTimer := if m.delayTimer > 0 then m.delayTimer - 1 else 0,
       soundTimer := if m.soundTimer > 0 then m.soundTimer - 1 else 0)
  }

  // ---------------------------------------------------------------------------------------
  // DXYN. The loop nest of src/chip8.rs:394-405 reads one sprite byte per row and visits
  // its eight columns. It reads VX and VY afresh for every pixel and writes VF as it goes,
  // so when X or Y is F the position it uses is the current collision flag. The framebuffer
  // and VF are therefore threaded through the pixels.

  /** The framebuffer and VF part-way through a draw. */
  datatype Canvas = Canvas(gfx: seq<Byte>, vf: Byte)

  /** `pixel & (0x80 >> col) != 0`: whether column col of a sprite row is set. */
  predicate SpriteBit(pixel: Byte, col: int)
    requires 0 <= col < 8
  {
    (pixel as bv8) & ((0x80 as bv8) >> col) != 0
  }

  /** The value of register r while VF holds vf. */
  function Live(v: seq<Byte>, vf: Byte, r: Nibble): Byte
    requires |v| == RegisterCount
  {
    if r == Flag then vf else v[r]
  }

  /** The framebuffer index of column col of sprite row row, drawn at (vx, vy). */
  function Position(vx: int, vy: int, row: int, col: int): int {
    vx + col + (vy + row) * 64
  }

  /** Column col of sprite row row, whose byte is pixel. */
  function DrawPixel(pixel: Byte, v: seq<Byte>, x: Nibble, y: Nibble, c: Canvas, row: nat, col: nat)
    : (r: Result<Canvas>)
    requires |v| == RegisterCount && |c.gfx| == GfxSize && col < 8
    ensures r.Ok? ==> |r.value.gfx| == GfxSize
  {
    if !SpriteBit(pixel, col) then Ok(c)
    else
      var index := Position(Live(v, c.vf, x), Live(v, c.vf, y), row, col);
      if index >= GfxSize then Err(ScreenOutOfBounds(index))
      else Ok(Canvas(c.gfx[index := Flip(c.gfx[index])], if c.gfx[index] == 1 then 1 else c.vf))
  }

  /** The width of a sprite row, in pixels. */
  const SpriteWidth: nat := 8

  /** The first cols columns of sprite row row, drawn onto c. */
  function DrawColumns(pixel: Byte, v: seq<Byte>, x: Nibble, y: Nibble, c: Canvas, row: nat, cols: nat)
    : (r: Result<Canvas>)
    requires |v| == RegisterCount && |c.gfx| == GfxSize && cols <= SpriteWidth
    ensures r.Ok? ==> |r.value.gfx| == GfxSize
    decreases cols
  {
    if cols == 0 then Ok(c)
    else
      var prev := DrawColumns(pixel, v, x, y, c, row, cols - 1);
      if prev.Err? then prev else DrawPixel(pixel, v, x, y, prev.value, row, cols - 1)
  }

  /** Sprite row row, its byte read from address i + row, drawn onto c. */
  function DrawRow(memory: seq<Byte>, i: int, v: seq<Byte>, x: Nibble, y: Nibble, c: Canvas, row: nat, width: nat)
    : (r: Result<Canvas>)
    requires |v| == RegisterCount && |c.gfx| == GfxSize && width <= SpriteWidth
    ensures r.Ok? ==> |r.value.gfx| == GfxSize
  {
    var address := i + row;
    // `self.i + (y_coord as i16)` is an i16 addition
    if address > 0x7FFF then Err(ArithmeticOverflow)
    else if address < 0 || address >= |memory| then Err(MemoryOutOfBounds(address))
    else DrawColumns(memory[address], v, x, y, c, row, width)
  }

  /** The first rows sprite rows of a draw that starts from framebuffer gfx with VF cleared. */
  function DrawRows(memory: seq<Byte>, i: int, v: seq<Byte>, x: Nibble, y: Nibble, gfx: seq<Byte>, rows: nat, width: nat)
    : (r: Result<Canvas>)
    requires |v| == RegisterCount && |gfx| == GfxSize && width <= SpriteWidth
    ensures r.Ok? ==> |r.value.gfx| == GfxSize
    decreases rows
  {
    if rows == 0 then Ok(Canvas(gfx, 0))
    else
      var prev := DrawRows(memory, i, v, x, y, gfx, rows - 1, width);
      if prev.Err? then prev else
      var c := prev.value;
      DrawRow(memory, i, v, x, y, c, rows - 1, width)
  }

  // ---------------------------------------------------------------------------------------

  /** The first address of `memory[i + j]`, j in 0..count, that is out of range
      (FX55, FX65). */
  function BlockFault(i: I16, count: nat): Option<int> {
    if i < 0 || i >= MemorySize then Some(i)
    else if i + count > MemorySize then Some(MemorySize)
    else None
  }

  datatype Option<T> = None | Some(value: T)

  /** Memory after FX55 has copied V0..VX to addresses i..i+x. */
  function StoredMemory(memory: seq<Byte>, v: seq<Byte>, i: int, x: Nibble): (s: seq<Byte>)
    requires |memory| == MemorySize && |v| == RegisterCount
    ensures |s| == MemorySize
    ensures forall k :: 0 <= k <= x && 0 <= i + k < MemorySize ==> s[i + k] == v[k]
    ensures forall a :: 0 <= a < MemorySize && !(i <= a <= i + x) ==> s[a] == memory[a]
  {
    seq(MemorySize, a requires 0 <= a < MemorySize => if i <= a <= i + x then v[a - i] else memory[a])
  }

  /** The registers after FX65 has copied addresses i..i+x to V0..VX. */
  function LoadedRegisters(memory: seq<Byte>, v: seq<Byte>, i: int, x: Nibble): (s: seq<Byte>)
    requires |v| == RegisterCount && 0 <= i && i + x < |memory|
    ensures |s| == RegisterCount
    ensures forall k :: 0 <= k <= x ==> s[k] == memory[i + k]
    ensures forall k :: x < k < RegisterCount ==> s[k] == v[k]
  {
    seq(RegisterCount, r requires 0 <= r < RegisterCount => if r <= x then memory[i + r] else v[r])
  }

  /** The effect of one decoded instruction, the arms of the `match` in `emulate_cycle`
      (src/chip8.rs:136-550). m already holds the fetched opcode. */
  function Execute(m: Machine, ins: Instr, rand: Byte): (r: Result<Machine>)
    requires WellFormed(m) && m.pc + 1 < MemorySize
    ensures r.Ok? ==> WellFormed(r.value) && r.value.opcode == m.opcode && r.value.key == m.key
  {
    if IsSystem(ins) then ExecuteSystem(m, ins)
    else if IsArith(ins) then ExecuteArith(m, ins)
    else if IsTimerOrMemory(ins) then ExecuteTimerOrMemory(m, ins)
    else if IsFlow(ins) then ExecuteFlow(m, ins)
    else ExecuteLoadOrDraw(m, ins, rand)
  }

  predicate IsSystem(ins: Instr) {
    ins.ClearScreen? || ins.Return? || ins.MachineCall?
  }

  /** The 0NNN family (src/chip8.rs:138-161). */
  function ExecuteSystem(m: Machine, ins: Instr): (r: Result<Machine>)
    requires WellFormed(m) && m.pc + 1 < MemorySize && IsSystem(ins)
    ensures r.Ok? ==> WellFormed(r.value) && r.value.opcode == m.opcode && r.value.key == m.key
    ensures ins.MachineCall? ==> r == Err(Unimplemented(m.opcode))
  {
    match ins
    case ClearScreen => Ok(m.(gfx := Zeros(GfxSize), drawSema := true, pc := m.pc + 2))
    case Return => ReturnEffect(m)
    case MachineCall(_) => Err(Unimplemented(m.opcode))
  }

  /** 00EE (src/chip8.rs:148-153): `sp -= 1` underflows at 0, `stack[sp]` is bounds-checked
      and `+ 2` is a u16 addition. */
  function ReturnEffect(m: Machine): (r: Result<Machine>)
    requires WellFormed(m)
    ensures r.Ok? <==> 0 < m.sp <= StackSize && m.stack[m.sp - 1] as int + 2 < 0x1_0000
    ensures m.sp == 0 ==> r == Err(StackUnderflow)
    ensures r.Ok? ==>
      WellFormed(r.value) && r.value.sp == m.sp - 1 && r.value.pc == m.stack[r.value.sp] + 2 &&
      r.value == m.(sp := r.value.sp, pc := r.value.pc)
  {
    if m.sp == 0 then Err(StackUnderflow)
    else if m.sp - 1 >= StackSize then Err(StackOutOfBounds(m.sp - 1))
    else if m.stack[m.sp - 1] as int + 2 >= 0x1_0000 then Err(ArithmeticOverflow)
    else Ok(m.(sp := m.sp - 1, pc := m.stack[m.sp - 1] + 2))
  }

  predicate IsArith(ins: Instr) {
    ins.Move? || ins.Or? || ins.And? || ins.Xor? || ins.AddReg? || ins.SubReg? || ins.ShiftRight? || ins.SubN? || ins.ShiftLeft?
  }

  /** The 8XYN family (src/chip8.rs:232-347). */
  function ExecuteArith(m: Machine, ins: Instr): (r: Result<Machine>)
    requires WellFormed(m) && m.pc + 1 < MemorySize && IsArith(ins)
    ensures r.Ok? && WellFormed(r.value) && r.value == m.(v := r.value.v, pc := m.pc + 2)
  {
    match ins
    case Move(x, y) => Ok(m.(v := m.v[x := m.v[y]], pc := m.pc + 2))
    case Or(x, y) => Ok(m.(v := m.v[x := BitOr(m.v[x], m.v[y])], pc := m.pc + 2))
    case And(x, y) => Ok(m.(v := m.v[x := BitAnd(m.v[x], m.v[y])], pc := m.pc + 2))
    case Xor(x, y) => Ok(m.(v := m.v[x := BitXor(m.v[x], m.v[y])], pc := m.pc + 2))
    case AddReg(x, y) => Ok(AddRegEffect(m, x, y))
    case SubReg(x, y) => Ok(SubRegEffect(m, x, y))
    case ShiftRight(x, _) => Ok(ShiftRightEffect(m, x))
    case SubN(x, y) => Ok(SubNEffect(m, x, y))
    case ShiftLeft(x, _) => Ok(ShiftLeftEffect(m, x))
  }

  // Where an 8XYN arm writes VF first, the value it then writes to VX is computed from the
  // registers after that write, as the Rust statements are sequenced; this matters when X or
  // Y is F.

  /** 8XY4 (src/chip8.rs:271-287): `checked_add` decides VF, then `wrapping_add`. */
  function AddRegEffect(m: Machine, x: Nibble, y: Nibble): (r: Machine)
    requires WellFormed(m) && m.pc + 1 < MemorySize
    ensures WellFormed(r) && r == m.(v := r.v, pc := m.pc + 2) && (x != Flag ==> r.v[Flag] <= 1)
    ensures forall k :: 0 <= k < RegisterCount && k != x && k != Flag ==> r.v[k] == m.v[k]
  {
    var v1 := m.v[Flag := if m.v[x] as int + m.v[y] > 0xFF then 1 else 0];
    m.(v := v1[x := (v1[x] as int + v1[y]) % 0x100], pc := m.pc + 2)
  }

  /** 8XY5 (src/chip8.rs:289-305): `checked_sub` decides VF, but VX receives `wrapping_add`. */
  function SubRegEffect(m: Machine, x: Nibble, y: Nibble): (r: Machine)
    requires WellFormed(m) && m.pc + 1 < MemorySize
    ensures WellFormed(r) && r == m.(v := r.v, pc := m.pc + 2) && (x != Flag ==> r.v[Flag] <= 1)
    ensures forall k :: 0 <= k < RegisterCount && k != x && k != Flag ==> r.v[k] == m.v[k]
  {
    var v1 := m.v[Flag := if m.v[x] >= m.v[y] then 1 else 0];
    m.(v := v1[x := (v1[x] as int + v1[y]) % 0x100], pc := m.pc + 2)
  }

  /** 8XY6 (src/chip8.rs:307-314). */
  function ShiftRightEffect(m: Machine, x: Nibble): (r: Machine)
    requires WellFormed(m) && m.pc + 1 < MemorySize
    ensures WellFormed(r) && r == m.(v := r.v, pc := m.pc + 2) && (x != Flag ==> r.v[Flag] <= 1)
    ensures forall k :: 0 <= k < RegisterCount && k != x && k != Flag ==> r.v[k] == m.v[k]
  {
    var v1 := m.v[Flag := m.v[x] % 2];
    m.(v := v1[x := v1[x] / 2], pc := m.pc + 2)
  }

  /** 8XY7 (src/chip8.rs:316-332). */
  function SubNEffect(m: Machine, x: Nibble, y: Nibble): (r: Machine)
    requires WellFormed(m) && m.pc + 1 < MemorySize
    ensures WellFormed(r) && r == m.(v := r.v, pc := m.pc + 2) && (x != Flag ==> r.v[Flag] <= 1)
    ensures forall k :: 0 <= k < RegisterCount && k != x && k != Flag ==> r.v[k] == m.v[k]
  {
    var v1 := m.v[Flag := if m.v[y] >= m.v[x] then 1 else 0];
    m.(v := v1[x := (v1[y] as int - v1[x]) % 0x100], pc := m.pc + 2)
  }

  /** 8XYE (src/chip8.rs:334-341): the u8 `<<=` drops the top bit. */
  function ShiftLeftEffect(m: Machine, x: Nibble): (r: Machine)
    requires WellFormed(m) && m.pc + 1 < MemorySize
    ensures WellFormed(r) && r == m.(v := r.v, pc := m.pc + 2) && (x != Flag ==> r.v[Flag] <= 1)
    ensures forall k :: 0 <= k < RegisterCount && k != x && k != Flag ==> r.v[k] == m.v[k]
  {
    var v1 := m.v[Flag := m.v[x] / 0x80];
    m.(v := v1[x := (v1[x] as int * 2) % 0x100], pc := m.pc + 2)
  }

  predicate IsTimerOrMemory(ins: Instr) {
    ins.GetDelay? || ins.WaitKey? || ins.SetDelay? || ins.SetSound? || ins.AddIndex? || ins.FontChar? || ins.Bcd? || ins.StoreRegs? || ins.LoadRegs?
  }

  /** The FXNN family (src/chip8.rs:445-545). */
  function ExecuteTimerOrMemory(m: Machine, ins: Instr): (r: Result<Machine>)
    requires WellFormed(m) && m.pc + 1 < MemorySize && IsTimerOrMemory(ins)
    ensures r.Ok? ==> WellFormed(r.value) && r.value.opcode == m.opcode && r.value.key == m.key && r.value.pc == m.pc + 2
    ensures ins.WaitKey? ==> r == Ok(m.(keySema := true, pc := m.pc + 2))
  {
    match ins
    case GetDelay(x) => Ok(m.(v := m.v[x := m.delayTimer], pc := m.pc + 2))
    case WaitKey(_) => Ok(m.(keySema := true, pc := m.pc + 2))
    case SetDelay(x) => Ok(m.(delayTimer := m.v[x], pc := m.pc + 2))
    case SetSound(x) => Ok(m.(soundTimer := m.v[x], pc := m.pc + 2))
    case AddIndex(x) => Ok(AddIndexEffect(m, x))
    case FontChar(x) => FontCharEffect(m, x)
    case Bcd(x) => BcdEffect(m, x)
    case StoreRegs(x) => StoreRegsEffect(m, x)
    case LoadRegs(x) => LoadRegsEffect(m, x)
  }

  /** FX1E (src/chip8.rs:482-497): i16 `checked_add` decides VF, then `wrapping_add` adds
      the register as it is after that write. */
  function AddIndexEffect(m: Machine, x: Nibble): (r: Machine)
    requires WellFormed(m) && m.pc + 1 < MemorySize
    ensures WellFormed(r) && r == m.(v := r.v, i := r.i, pc := m.pc + 2) && r.v[Flag] <= 1
    ensures forall k :: 0 <= k < RegisterCount && k != Flag ==> r.v[k] == m.v[k]
  {
    var v1 := m.v[Flag := if m.i + m.v[x] > 0x7FFF then 1 else 0];
    m.(v := v1, i := WrapI16(m.i + v1[x]), pc := m.pc + 2)
  }

  /** FX29 (src/chip8.rs:499-506): `v[x] * 5 + 80` is a u8 computation. */
  function FontCharEffect(m: Machine, x: Nibble): (r: Result<Machine>)
    requires WellFormed(m) && m.pc + 1 < MemorySize
    ensures r.Ok? <==> m.v[x] < 36
    ensures r.Err? ==> r.fault == ArithmeticOverflow
    ensures r.Ok? ==> WellFormed(r.value) && r.value == m.(i := FontOffset + 5 * m.v[x], pc := m.pc + 2)
  {
    if m.v[x] * 5 + FontOffset > 0xFF then Err(ArithmeticOverflow)
    else Ok(m.(i := m.v[x] * 5 + FontOffset, pc := m.pc + 2))
  }

  /** FX33 (src/chip8.rs:508-517): the three digits, each write bounds-checked in turn. */
  function BcdEffect(m: Machine, x: Nibble): (r: Result<Machine>)
    requires WellFormed(m) && m.pc + 1 < MemorySize
    ensures r.Ok? <==> 0 <= m.i && m.i + 2 < MemorySize
    ensures r.Err? ==> r.fault == MemoryOutOfBounds(if m.i < 0 || m.i >= MemorySize then m.i else MemorySize)
    ensures r.Ok? ==> WellFormed(r.value) && r.value == m.(memory := r.value.memory, pc := m.pc + 2)
  {
    if m.i < 0 || m.i >= MemorySize then Err(MemoryOutOfBounds(m.i))
    else if m.i + 1 >= MemorySize then Err(MemoryOutOfBounds(m.i + 1))
    else if m.i + 2 >= MemorySize then Err(MemoryOutOfBounds(m.i + 2))
    else
      var vx := m.v[x];
      Ok(m.(memory := m.memory[m.i := vx / 100][m.i + 1 := (vx / 10) % 10][m.i + 2 := (vx % 100) % 10],
            pc := m.pc + 2))
  }

  /** FX55 (src/chip8.rs:519-528). */
  function StoreRegsEffect(m: Machine, x: Nibble): (r: Result<Machine>)
    requires WellFormed(m) && m.pc + 1 < MemorySize
    ensures r.Ok? <==> 0 <= m.i && m.i + x < MemorySize
    ensures r.Err? ==> r.fault == MemoryOutOfBounds(if m.i < 0 || m.i >= MemorySize then m.i else MemorySize)
    ensures r.Ok? ==> WellFormed(r.value) && r.value == m.(memory := r.value.memory, pc := m.pc + 2)
  {
    match BlockFault(m.i, x + 1)
    case Some(a) => Err(MemoryOutOfBounds(a))
    case None => Ok(m.(memory := StoredMemory(m.memory, m.v, m.i, x), pc := m.pc + 2))
  }

  /** FX65 (src/chip8.rs:530-539). */
  function LoadRegsEffect(m: Machine, x: Nibble): (r: Result<Machine>)
    requires WellFormed(m) && m.pc + 1 < MemorySize
    ensures r.Ok? <==> 0 <= m.i && m.i + x < MemorySize
    ensures r.Err? ==> r.fault == MemoryOutOfBounds(if m.i < 0 || m.i >= MemorySize then m.i else MemorySize)
    ensures r.Ok? ==> WellFormed(r.value) && r.value == m.(v := r.value.v, pc := m.pc + 2)
  {
    match BlockFault(m.i, x + 1)
    case Some(a) => Err(MemoryOutOfBounds(a))
    case None => Ok(m.(v := LoadedRegisters(m.memory, m.v, m.i, x), pc := m.pc + 2))
  }

  predicate IsFlow(ins: Instr) {
    ins.Jump? || ins.Call? || ins.SkipEqImm? || ins.SkipNeImm? || ins.SkipEqReg? || ins.SkipNeReg? ||
    ins.JumpV0? || ins.SkipKeyDown? || ins.SkipKeyUp?
  }

  /** Jumps, the call, and the conditional skips (src/chip8.rs:163-213, 349-372, 411-443). */
  function ExecuteFlow(m: Machine, ins: Instr): (r: Result<Machine>)
    requires WellFormed(m) && m.pc + 1 < MemorySize && IsFlow(ins)
    ensures r.Ok? ==> WellFormed(r.value) && r.value.opcode == m.opcode && r.value.key == m.key && r.value.v == m.v && r.value.memory == m.memory
    ensures !ins.Call? && !ins.SkipKeyDown? && !ins.SkipKeyUp? ==> r.Ok?
  {
    match ins
    case Jump(a) => Ok(m.(pc := a))
    case Call(a) => CallEffect(m, a)
    case SkipEqImm(x, nn) => Ok(m.(pc := if m.v[x] == nn then m.pc + 4 else m.pc + 2))
    case SkipNeImm(x, nn) => Ok(m.(pc := if m.v[x] != nn then m.pc + 4 else m.pc + 2))
    case SkipEqReg(x, y, _) => Ok(m.(pc := if m.v[x] == m.v[y] then m.pc + 4 else m.pc + 2))
    case SkipNeReg(x, y, _) => Ok(m.(pc := if m.v[x] != m.v[y] then m.pc + 4 else m.pc + 2))
    case JumpV0(a) => Ok(m.(pc := m.v[0] + a))
    case SkipKeyDown(x) => SkipKeyEffect(m, x, true)
    case SkipKeyUp(x) => SkipKeyEffect(m, x, false)
  }

  /** 2NNN (src/chip8.rs:169-175): `stack[sp]` is bounds-checked. */
  function CallEffect(m: Machine, a: Addr): (r: Result<Machine>)
    requires WellFormed(m)
    ensures r.Ok? <==> m.sp < StackSize
    ensures r.Err? ==> r.fault == StackOutOfBounds(m.sp)
    ensures r.Ok? ==>
      WellFormed(r.value) && r.value.sp == m.sp + 1 && r.value.pc == a &&
      r.value.stack[m.sp] == m.pc && r.value == m.(stack := r.value.stack, sp := m.sp + 1, pc := a)
    ensures r.Ok? ==> forall k :: 0 <= k < StackSize && k != m.sp ==> r.value.stack[k] == m.stack[k]
  {
    if m.sp >= StackSize then Err(StackOutOfBounds(m.sp))
    else Ok(m.(stack := m.stack[m.sp := m.pc], sp := m.sp + 1, pc := a))
  }

  /** EX9E (down) and EXA1 (not down) (src/chip8.rs:415-436): skip when the key numbered VX
      is down, or up; `key[v[x]]` is bounds-checked. */
  function SkipKeyEffect(m: Machine, x: Nibble, down: bool): (r: Result<Machine>)
    requires WellFormed(m) && m.pc + 1 < MemorySize
    ensures r.Ok? <==> m.v[x] < KeyCount
    ensures r.Err? ==> r.fault == KeyOutOfBounds(m.v[x])
    ensures r.Ok? ==>
      WellFormed(r.value) && r.value == m.(pc := r.value.pc) &&
      (r.value.pc == m.pc + 4 <==> (m.key[m.v[x]] != 0) == down) && (r.value.pc == m.pc + 2 || r.value.pc == m.pc + 4)
  {
    if m.v[x] >= KeyCount then Err(KeyOutOfBounds(m.v[x]))
    else Ok(m.(pc := if (m.key[m.v[x]] != 0) == down then m.pc + 4 else m.pc + 2))
  }

  /** 6XNN, 7XNN, ANNN, CXNN and DXYN (src/chip8.rs:215-230, 361-366, 374-409). */
  function ExecuteLoadOrDraw(m: Machine, ins: Instr, rand: Byte): (r: Result<Machine>)
    requires WellFormed(m) && m.pc + 1 < MemorySize
    requires !IsSystem(ins) && !IsArith(ins) && !IsTimerOrMemory(ins) && !IsFlow(ins)
    ensures r.Ok? ==> WellFormed(r.value) && r.value.opcode == m.opcode && r.value.key == m.key && r.value.pc == m.pc + 2
    ensures !ins.Draw? ==> r.Ok?
  {
    match ins
    case LoadImm(x, nn) => Ok(m.(v := m.v[x := nn], pc := m.pc + 2))
    case AddImm(x, nn) => Ok(m.(v := m.v[x := (m.v[x] as int + nn) % 0x100], pc := m.pc + 2))
    case SetIndex(a) => Ok(m.(i := a, pc := m.pc + 2))
    case Random(x, nn) => Ok(m.(v := m.v[x := BitAnd(m.v[x], BitAnd(nn, rand))], pc := m.pc + 2))
    case Draw(x, y, n) => DrawEffect(m, x, y, n)
  }

  /** DXYN (src/chip8.rs:389-408): VF is cleared, the 8 * N pixels are drawn, and the draw
      semaphore is raised. */
  function DrawEffect(m: Machine, x: Nibble, y: Nibble, n: Nibble): (r: Result<Machine>)
    requires WellFormed(m) && m.pc + 1 < MemorySize
    ensures r.Ok? ==>
      WellFormed(r.value) &&
      r.value == m.(gfx := r.value.gfx, v := m.v[Flag := r.value.v[Flag]], drawSema := true, pc := m.pc + 2)
  {
    var d := DrawRows(m.memory, m.i, m.v, x, y, m.gfx, n, SpriteWidth);
    if d.Err? then Err(d.fault) else
    var c := d.value;
    Ok(m.(gfx := c.gfx, v := m.v[Flag := c.vf], drawSema := true, pc := m.pc + 2))
  }

  /** Step once the fetch and the decode have succeeded. */
  lemma StepOfDecoded(m: Machine, rand: Byte)
    requires WellFormed(m) && Fetch(m).Ok? && Decode(Fetch(m).value).Ok?
    ensures var e := Execute(m.(opcode := Fetch(m).value), Decode(Fetch(m).value).value, rand);
      Step(m, rand) == if e.Ok? then Ok(Tick(e.value)) else Err(e.fault)
  {
  }

  /** One `emulate_cycle`: fetch, decode, execute, tick (src/chip8.rs:124-558). */
  function Step(m: Machine, rand: Byte): (r: Result<Machine>)
    requires WellFormed(m)
    ensures r.Ok? ==> Fetch(m).Ok? && WellFormed(r.value) && r.value.key == m.key && r.value.opcode == Fetch(m).value
    ensures Fetch(m).Err? ==> r == Err(Fetch(m).fault)
    ensures Fetch(m).Ok? && Decode(Fetch(m).value).Err? ==> r == Err(UnknownOpcode(Fetch(m).value))
  {
    var op :- Fetch(m);
    var ins :- Decode(op);
    var m2 :- Execute(m.(opcode := op), ins, rand);
    Ok(Tick(m2))
  }
}
