/** The `Chip8` struct and its methods (src/chip8.rs:15-588), each proved to change the
    state as the corresponding function of Semantics says. */
module Engine {
  import opened ChipTypes
  import opened Opcodes
  import opened Semantics
  import Drawing

  class Chip8 {
    var opcode: Word
    const memory: array<Byte>
    const v: array<Byte>
    var i: I16
    var pc: Word
    const gfx: array<Byte>
    var drawSema: bool
    var keySema: bool
    var delayTimer: Byte
    var soundTimer: Byte
    const stack: array<Word>
    var sp: Byte
    const key: array<Byte>

    /** The fixed array sizes of the struct, and that its arrays are distinct. */
    ghost predicate Valid() {
      memory.Length == MemorySize && v.Length == RegisterCount && gfx.Length == GfxSize &&
      stack.Length == StackSize && key.Length == KeyCount &&
      memory != v && memory != gfx && memory != key && v != gfx && v != key && gfx != key
    }

    /** The whole struct as a value. */
    ghost function State(): (m: Machine)
      reads this, memory, v, gfx, stack, key
      ensures Valid() ==> WellFormed(m)
    {
      Machine(opcode, memory[..], v[..], i, pc, gfx[..], drawSema, keySema, delayTimer, soundTimer,
              stack[..], sp, key[..])
    }

    /** `new` (src/chip8.rs:34-50). */
    constructor ()
      ensures Valid() && State() == NewMachine()
    {
      opcode := 0;
      memory := new Byte[MemorySize](_ => 0);
      v := new Byte[RegisterCount](_ => 0);
      i := 0;
      pc := 0;
      gfx := new Byte[GfxSize](_ => 0);
      drawSema := false;
      keySema := false;
      delayTimer := 0;
      soundTimer := 0;
      stack := new Word[StackSize](_ => 0);
      sp := 0;
      key := new Byte[KeyCount](_ => 0);
      new;
      assert memory[..] == Zeros(MemorySize);
      assert v[..] == Zeros(RegisterCount);
      assert gfx[..] == Zeros(GfxSize);
      assert stack[..] == Zeros(StackSize);
      assert key[..] == Zeros(KeyCount);
    }

    /** `initialize` (src/chip8.rs:55-94). */
    method Initialize()
      requires Valid()
      modifies this, memory, v, gfx, stack, key
      ensures State() == Initialized(old(State()))
    {
      pc := ProgramStart;
      opcode := 0;
      i := 0;
      sp := 0;
      ClearGfx();
      ClearStack();
      ClearRegisters();
      ClearKeys();
      ClearMemory();
      LoadFont();
    }

    /** The loop that clears the display (src/chip8.rs:63-65, and again at 141-143). */
    method ClearGfx()
      requires Valid()
      modifies gfx
      ensures gfx[..] == Zeros(GfxSize)
    {
      for k := 0 to GfxSize
        invariant forall j :: 0 <= j < k ==> gfx[j] == 0
      {
        gfx[k] := 0;
      }
      assert gfx[..] == Zeros(GfxSize);
    }

    /** src/chip8.rs:68-70. */
    method ClearStack()
      requires Valid()
      modifies stack
      ensures stack[..] == Zeros(StackSize)
    {
      for k := 0 to StackSize
        invariant forall j :: 0 <= j < k ==> stack[j] == 0
      {
        stack[k] := 0;
      }
      assert stack[..] == Zeros(StackSize);
    }

    /** src/chip8.rs:73-75. */
    method ClearRegisters()
      requires Valid()
      modifies v
      ensures v[..] == Zeros(RegisterCount)
    {
      for k := 0 to RegisterCount
        invariant forall j :: 0 <= j < k ==> v[j] == 0
      {
        v[k] := 0;
      }
      assert v[..] == Zeros(RegisterCount);
    }

    /** src/chip8.rs:78-80. */
    method ClearKeys()
      requires Valid()
      modifies key
      ensures key[..] == Zeros(KeyCount)
    {
      for k := 0 to KeyCount
        invariant forall j :: 0 <= j < k ==> key[j] == 0
      {
        key[k] := 0;
      }
      assert key[..] == Zeros(KeyCount);
    }

    /** src/chip8.rs:83-85. */
    method ClearMemory()
      requires Valid()
      modifies memory
      ensures memory[..] == Zeros(MemorySize)
    {
      for k := 0 to MemorySize
        invariant forall j :: 0 <= j < k ==> memory[j] == 0
      {
        memory[k] := 0;
      }
      assert memory[..] == Zeros(MemorySize);
    }

    /** The font loop of `initialize` (src/chip8.rs:88-90), on a memory already cleared. */
    method LoadFont()
      requires Valid() && memory[..] == Zeros(MemorySize)
      modifies memory
      ensures memory[..] == FontMemory()
    {
      for k := 0 to |FontSet|
        invariant forall a :: 0 <= a < MemorySize ==>
          memory[a] == if FontOffset <= a < FontOffset + k then FontSet[a - FontOffset] else 0
      {
        memory[k + FontOffset] := FontSet[k];
      }
      FontMemoryByElements(memory[..]);
    }

    /** The copy loop of `load` (src/chip8.rs:114-116); rom is the file's contents. */
    method Load(rom: seq<Byte>) returns (r: Outcome)
      requires Valid()
      modifies memory
      ensures r == LoadOutcome(rom)
      ensures State() == old(State()).(memory := LoadedMemory(old(memory[..]), rom))
    {
      for k := 0 to |rom|
        modifies memory
        invariant ProgramStart + k <= MemorySize
        invariant forall a :: 0 <= a < MemorySize ==>
          memory[a] == if ProgramStart <= a < ProgramStart + k then rom[a - ProgramStart] else old(memory[a])
      {
        if k + ProgramStart >= MemorySize {
          assert memory[..] == LoadedMemory(old(memory[..]), rom);
          return Failure(MemoryOutOfBounds(k + ProgramStart));
        }
        memory[k + ProgramStart] := rom[k];
      }
      assert memory[..] == LoadedMemory(old(memory[..]), rom);
      r := Success;
    }

    /** `emulate_cycle` (src/chip8.rs:124-558); rand is the byte `rand::thread_rng` would
        give CXNN. A fault is the panic that ends the program, after which the state is
        of no further interest. */
    method EmulateCycle(rand: Byte) returns (r: Outcome)
      requires Valid()
      modifies this, memory, v, gfx, stack
      ensures r == OutcomeOf(Step(old(State()), rand))
      ensures r.Success? ==> State() == Step(old(State()), rand).value
    {
      ghost var m0 := State();
      if pc >= MemorySize {
        return Failure(MemoryOutOfBounds(pc));
      }
      if pc + 1 >= MemorySize {
        return Failure(MemoryOutOfBounds(pc + 1));
      }
      opcode := memory[pc] as int * 0x100 + memory[pc + 1];
      var decoded := Decode(opcode);
      if decoded.Err? {
        return Failure(decoded.fault);
      }
      var ins := decoded.value;
      assert State() == m0.(opcode := Fetch(m0).value);
      StepOfDecoded(m0, rand);
      ghost var e := Execute(State(), ins, rand);
      if IsSystem(ins) {
        r := ExecSystem(ins);
      } else if IsArith(ins) {
        r := ExecArith(ins);
      } else if IsTimerOrMemory(ins) {
        r := ExecTimerOrMemory(ins);
      } else if IsFlow(ins) {
        r := ExecFlow(ins);
      } else {
        r := ExecLoadOrDraw(ins, rand);
      }
      assert r == OutcomeOf(e) && (e.Ok? ==> State() == e.value);
      if r.Success? {
        TickTimers();
      }
    }

    /** The timer updates at the end of `emulate_cycle` (src/chip8.rs:552-557). */
    method TickTimers()
      modifies this
      ensures State() == Tick(old(State()))
    {
      if delayTimer > 0 {
        delayTimer := delayTimer - 1;
      }
      if soundTimer > 0 {
        soundTimer := soundTimer - 1;
      }
    }

    /** 00E0, 00EE and 0NNN (src/chip8.rs:138-161). */
    method ExecSystem(ins: Instr) returns (r: Outcome)
      requires Valid() && pc + 1 < MemorySize && IsSystem(ins)
      modifies this, gfx
      ensures var e := ExecuteSystem(old(State()), ins);
        r == OutcomeOf(e) && (e.Ok? ==> State() == e.value)
    {
      match ins {
        case ClearScreen =>
          ClearScreenOp();
          r := Success;
        case Return =>
          r := ReturnOp();
        case MachineCall(_) =>
          r := Failure(Unimplemented(opcode));
      }
    }

    /** 00E0 (src/chip8.rs:140-146). */
    method ClearScreenOp()
      requires Valid() && pc + 1 < MemorySize
      modifies this, gfx
      ensures State() == old(State()).(gfx := Zeros(GfxSize), drawSema := true, pc := old(pc) + 2)
    {
      ClearGfx();
      drawSema := true;
      pc := pc + 2;
    }

    /** 00EE (src/chip8.rs:148-153). */
    method ReturnOp() returns (r: Outcome)
      requires Valid()
      modifies this
      ensures var e := ReturnEffect(old(State()));
        r == OutcomeOf(e) && (e.Ok? ==> State() == e.value)
    {
      if sp == 0 {
        return Failure(StackUnderflow);
      }
      sp := sp - 1;
      if sp >= StackSize {
        return Failure(StackOutOfBounds(sp));
      }
      if stack[sp] as int + 2 >= 0x1_0000 {
        return Failure(ArithmeticOverflow);
      }
      pc := stack[sp] + 2;
      r := Success;
    }

    /** 8XY0-8XYE (src/chip8.rs:232-347). */
    method ExecArith(ins: Instr) returns (r: Outcome)
      requires Valid() && pc + 1 < MemorySize && IsArith(ins)
      modifies this, v
      ensures var e := ExecuteArith(old(State()), ins);
        r == OutcomeOf(e) && (e.Ok? ==> State() == e.value)
    {
      match ins {
        case Move(x, y) =>
          v[x] := v[y];
          pc := pc + 2;
        case Or(x, y) =>
          v[x] := BitOr(v[x], v[y]);
          pc := pc + 2;
        case And(x, y) =>
          v[x] := BitAnd(v[x], v[y]);
          pc := pc + 2;
        case Xor(x, y) =>
          v[x] := BitXor(v[x], v[y]);
          pc := pc + 2;
        case AddReg(x, y) =>
          AddRegOp(x, y);
        case SubReg(x, y) =>
          SubRegOp(x, y);
        case ShiftRight(x, _) =>
          ShiftRightOp(x);
        case SubN(x, y) =>
          SubNOp(x, y);
        case ShiftLeft(x, _) =>
          ShiftLeftOp(x);
      }
      r := Success;
    }

    /** 8XY4 (src/chip8.rs:271-287). */
    method AddRegOp(x: Nibble, y: Nibble)
      requires Valid() && pc + 1 < MemorySize
      modifies this, v
      ensures State() == AddRegEffect(old(State()), x, y)
    {
      v[Flag] := if v[x] as int + v[y] > 0xFF then 1 else 0;
      v[x] := (v[x] as int + v[y]) % 0x100;
      pc := pc + 2;
    }

    /** 8XY5 (src/chip8.rs:289-305). */
    method SubRegOp(x: Nibble, y: Nibble)
      requires Valid() && pc + 1 < MemorySize
      modifies this, v
      ensures State() == SubRegEffect(old(State()), x, y)
    {
      v[Flag] := if v[x] >= v[y] then 1 else 0;
      v[x] := (v[x] as int + v[y]) % 0x100;
      pc := pc + 2;
    }

    /** 8XY6 (src/chip8.rs:307-314). */
    method ShiftRightOp(x: Nibble)
      requires Valid() && pc + 1 < MemorySize
      modifies this, v
      ensures State() == ShiftRightEffect(old(State()), x)
    {
      v[Flag] := v[x] % 2;
      v[x] := v[x] / 2;
      pc := pc + 2;
    }

    /** 8XY7 (src/chip8.rs:316-332). */
    method SubNOp(x: Nibble, y: Nibble)
      requires Valid() && pc + 1 < MemorySize
      modifies this, v
      ensures State() == SubNEffect(old(State()), x, y)
    {
      v[Flag] := if v[y] >= v[x] then 1 else 0;
      v[x] := (v[y] as int - v[x]) % 0x100;
      pc := pc + 2;
    }

    /** 8XYE (src/chip8.rs:334-341). */
    method ShiftLeftOp(x: Nibble)
      requires Valid() && pc + 1 < MemorySize
      modifies this, v
      ensures State() == ShiftLeftEffect(old(State()), x)
    {
      v[Flag] := v[x] / 0x80;
      v[x] := (v[x] as int * 2) % 0x100;
      pc := pc + 2;
    }

    /** FX07-FX65 (src/chip8.rs:445-545). */
    method ExecTimerOrMemory(ins: Instr) returns (r: Outcome)
      requires Valid() && pc + 1 < MemorySize && IsTimerOrMemory(ins)
      modifies this, v, memory
      ensures var e := ExecuteTimerOrMemory(old(State()), ins);
        r == OutcomeOf(e) && (e.Ok? ==> State() == e.value)
    {
      r := Success;
      match ins {
        case GetDelay(x) =>
          v[x] := delayTimer;
          pc := pc + 2;
        case WaitKey(_) =>
          keySema := true;
          pc := pc + 2;
        case SetDelay(x) =>
          delayTimer := v[x];
          pc := pc + 2;
        case SetSound(x) =>
          soundTimer := v[x];
          pc := pc + 2;
        case AddIndex(x) =>
          AddIndexOp(x);
        case FontChar(x) =>
          r := FontCharOp(x);
        case Bcd(x) =>
          r := BcdOp(x);
        case StoreRegs(x) =>
          r := StoreRegsOp(x);
        case LoadRegs(x) =>
          r := LoadRegsOp(x);
      }
    }

    /** FX1E (src/chip8.rs:482-497). */
    method AddIndexOp(x: Nibble)
      requires Valid() && pc + 1 < MemorySize
      modifies this, v
      ensures State() == AddIndexEffect(old(State()), x)
    {
      v[Flag] := if i + v[x] > 0x7FFF then 1 else 0;
      i := WrapI16(i + v[x]);
      pc := pc + 2;
    }

    /** FX29 (src/chip8.rs:499-506). */
    method FontCharOp(x: Nibble) returns (r: Outcome)
      requires Valid() && pc + 1 < MemorySize
      modifies this
      ensures var e := FontCharEffect(old(State()), x);
        r == OutcomeOf(e) && (e.Ok? ==> State() == e.value)
    {
      if v[x] * 5 + FontOffset > 0xFF {
        return Failure(ArithmeticOverflow);
      }
      i := v[x] * 5 + FontOffset;
      pc := pc + 2;
      r := Success;
    }

    /** FX33 (src/chip8.rs:508-517). */
    method BcdOp(x: Nibble) returns (r: Outcome)
      requires Valid() && pc + 1 < MemorySize
      modifies this, memory
      ensures var e := BcdEffect(old(State()), x);
        r == OutcomeOf(e) && (e.Ok? ==> State() == e.value)
    {
      if i < 0 || i >= MemorySize {
        return Failure(MemoryOutOfBounds(i));
      }
      memory[i] := v[x] / 100;
      if i + 1 >= MemorySize {
        return Failure(MemoryOutOfBounds(i + 1));
      }
      memory[i + 1] := (v[x] / 10) % 10;
      if i + 2 >= MemorySize {
        return Failure(MemoryOutOfBounds(i + 2));
      }
      memory[i + 2] := (v[x] % 100) % 10;
      pc := pc + 2;
      r := Success;
    }

    /** FX55 (src/chip8.rs:519-528): V0..VX to memory from I on. */
    method StoreRegsOp(x: Nibble) returns (r: Outcome)
      requires Valid() && pc + 1 < MemorySize
      modifies this, memory
      ensures var e := StoreRegsEffect(old(State()), x);
        r == OutcomeOf(e) && (e.Ok? ==> State() == e.value)
    {
      for reg := 0 to x + 1
        modifies memory
        invariant reg > 0 ==> 0 <= i && i + reg <= MemorySize
        invariant forall a :: 0 <= a < MemorySize ==>
          memory[a] == if i <= a < i + reg then v[a - i] else old(memory[a])
      {
        var address := i + reg;
        if address < 0 || address >= MemorySize {
          return Failure(MemoryOutOfBounds(address));
        }
        memory[address] := v[reg];
      }
      assert memory[..] == StoredMemory(old(memory[..]), v[..], i, x);
      pc := pc + 2;
      r := Success;
    }

    /** FX65 (src/chip8.rs:530-539): V0..VX from memory from I on. */
    method LoadRegsOp(x: Nibble) returns (r: Outcome)
      requires Valid() && pc + 1 < MemorySize
      modifies this, v
      ensures var e := LoadRegsEffect(old(State()), x);
        r == OutcomeOf(e) && (e.Ok? ==> State() == e.value)
    {
      for reg := 0 to x + 1
        modifies v
        invariant reg > 0 ==> 0 <= i && i + reg <= MemorySize
        invariant forall k :: 0 <= k < RegisterCount ==>
          v[k] == if k < reg then memory[i + k] else old(v[k])
      {
        var address := i + reg;
        if address < 0 || address >= MemorySize {
          return Failure(MemoryOutOfBounds(address));
        }
        v[reg] := memory[address];
      }
      assert v[..] == LoadedRegisters(memory[..], old(v[..]), i, x);
      pc := pc + 2;
      r := Success;
    }

    /** 1NNN, 2NNN, 3XNN, 4XNN, 5XY0, 9XY0, BNNN, EX9E, EXA1 (src/chip8.rs:163-213, 349-372, 411-443). */
    method ExecFlow(ins: Instr) returns (r: Outcome)
      requires Valid() && pc + 1 < MemorySize && IsFlow(ins)
      modifies this, stack
      ensures var e := ExecuteFlow(old(State()), ins);
        r == OutcomeOf(e) && (e.Ok? ==> State() == e.value)
    {
      r := Success;
      match ins {
        case Jump(a) =>
          pc := a;
        case Call(a) =>
          r := CallOp(a);
        case JumpV0(a) =>
          pc := v[0] + a;
        case SkipKeyDown(x) =>
          r := SkipKeyOp(x, true);
        case SkipKeyUp(x) =>
          r := SkipKeyOp(x, false);
        case SkipEqImm(_, _) =>
          SkipOp(ins);
        case SkipNeImm(_, _) =>
          SkipOp(ins);
        case SkipEqReg(_, _, _) =>
          SkipOp(ins);
        case SkipNeReg(_, _, _) =>
          SkipOp(ins);
      }
    }

    /** 3XNN, 4XNN, 5XY0 and 9XY0 (src/chip8.rs:177-213, 349-359). */
    method SkipOp(ins: Instr)
      requires Valid() && pc + 1 < MemorySize
      requires ins.SkipEqImm? || ins.SkipNeImm? || ins.SkipEqReg? || ins.SkipNeReg?
      modifies this
      ensures var e := ExecuteFlow(old(State()), ins); e.Ok? && State() == e.value
    {
      match ins {
        case SkipEqImm(x, nn) =>
          pc := if v[x] == nn then pc + 4 else pc + 2;
        case SkipNeImm(x, nn) =>
          pc := if v[x] != nn then pc + 4 else pc + 2;
        case SkipEqReg(x, y, _) =>
          pc := if v[x] == v[y] then pc + 4 else pc + 2;
        case SkipNeReg(x, y, _) =>
          pc := if v[x] != v[y] then pc + 4 else pc + 2;
      }
    }

    /** 2NNN (src/chip8.rs:169-175). */
    method CallOp(a: Addr) returns (r: Outcome)
      requires Valid()
      modifies this, stack
      ensures var e := CallEffect(old(State()), a);
        r == OutcomeOf(e) && (e.Ok? ==> State() == e.value)
    {
      if sp >= StackSize {
        return Failure(StackOutOfBounds(sp));
      }
      stack[sp] := pc;
      sp := sp + 1;
      pc := a;
      r := Success;
    }

    /** EX9E when down holds, EXA1 otherwise (src/chip8.rs:415-436). */
    method SkipKeyOp(x: Nibble, down: bool) returns (r: Outcome)
      requires Valid() && pc + 1 < MemorySize
      modifies this
      ensures var e := SkipKeyEffect(old(State()), x, down);
        r == OutcomeOf(e) && (e.Ok? ==> State() == e.value)
    {
      if v[x] >= KeyCount {
        return Failure(KeyOutOfBounds(v[x]));
      }
      if down {
        pc := if key[v[x]] == 0 then pc + 2 else pc + 4;
      } else {
        pc := if key[v[x]] == 0 then pc + 4 else pc + 2;
      }
      r := Success;
    }

    /** 6XNN, 7XNN, ANNN, CXNN and DXYN (src/chip8.rs:215-230, 361-366, 374-409). */
    method ExecLoadOrDraw(ins: Instr, rand: Byte) returns (r: Outcome)
      requires Valid() && pc + 1 < MemorySize
      requires !IsSystem(ins) && !IsArith(ins) && !IsTimerOrMemory(ins) && !IsFlow(ins)
      modifies this, v, gfx
      ensures var e := ExecuteLoadOrDraw(old(State()), ins, rand);
        r == OutcomeOf(e) && (e.Ok? ==> State() == e.value)
    {
      r := Success;
      match ins {
        case LoadImm(x, nn) =>
          v[x] := nn;
          pc := pc + 2;
        case AddImm(x, nn) =>
          v[x] := (v[x] as int + nn) % 0x100;
          pc := pc + 2;
        case SetIndex(a) =>
          i := a;
          pc := pc + 2;
        case Random(x, nn) =>
          v[x] := BitAnd(v[x], BitAnd(nn, rand));
          pc := pc + 2;
        case Draw(x, y, n) =>
          r := DrawOp(x, y, n);
      }
    }

    /** DXYN (src/chip8.rs:389-408). */
    method DrawOp(x: Nibble, y: Nibble, n: Nibble) returns (r: Outcome)
      requires Valid() && pc + 1 < MemorySize
      modifies this, v, gfx
      ensures var e := DrawEffect(old(State()), x, y, n);
        r == OutcomeOf(e) && (e.Ok? ==> State() == e.value)
    {
      r := DrawRowsOp(x, y, n, SpriteWidth);
      if r.Success? {
        drawSema := true;
        pc := pc + 2;
      }
    }

    /** The drawing loops of DXYN (src/chip8.rs:390-404): the N sprite rows from I on,
        XORed onto the framebuffer at (VX, VY), with VF recording whether a set pixel
        was cleared. Each row is width pixels wide; DXYN draws rows of SpriteWidth. */
    method DrawRowsOp(x: Nibble, y: Nibble, n: Nibble, width: nat) returns (r: Outcome)
      requires Valid() && width <= SpriteWidth
      modifies v, gfx
      ensures var d := DrawRows(memory[..], i, old(v[..]), x, y, old(gfx[..]), n, width);
        r == OutcomeOf(d) && (d.Ok? ==> gfx[..] == d.value.gfx && v[..] == old(v[..])[Flag := d.value.vf])
    {
      ghost var mem, v0, gfx0 := memory[..], v[..], gfx[..];
      v[Flag] := 0;
      ghost var c := Canvas(gfx[..], 0);
      for row := 0 to n
        modifies v, gfx
        invariant memory[..] == mem
        invariant DrawRows(mem, i, v0, x, y, gfx0, row, width) == Ok(c)
        invariant c.gfx == gfx[..] && c.vf == v[Flag]
        invariant v[..] == v0[Flag := v[Flag]]
      {
        r := DrawRowOp(x, y, row, width, mem, v0);
        if r.Failure? {
          Drawing.RowFaultPersists(mem, i, v0, x, y, gfx0, width, row + 1, n);
          return;
        }
        c := Canvas(gfx[..], v[Flag]);
      }
      r := Success;
    }

    /** One pass of the outer loop of DXYN (src/chip8.rs:395-404): sprite row row, read
        from I + row and drawn onto the framebuffer and VF. */
    method DrawRowOp(x: Nibble, y: Nibble, row: nat, width: nat, ghost mem: seq<Byte>, ghost v0: seq<Byte>)
      returns (r: Outcome)
      requires Valid() && width <= SpriteWidth && mem == memory[..] && |v0| == RegisterCount
      requires v[..] == v0[Flag := v[Flag]]
      modifies v, gfx
      ensures v[..] == v0[Flag := v[Flag]]
      ensures var d := DrawRow(mem, i, v0, x, y, Canvas(old(gfx[..]), old(v[Flag])), row, width);
        r == OutcomeOf(d) && (d.Ok? ==> d.value == Canvas(gfx[..], v[Flag]))
    {
      ghost var c0 := Canvas(gfx[..], v[Flag]);
      var address := i + row;
      if address > 0x7FFF {
        return Failure(ArithmeticOverflow);
      }
      if address < 0 || address >= MemorySize {
        return Failure(MemoryOutOfBounds(address));
      }
      var pixel := memory[address];
      for col := 0 to width
        modifies v, gfx
        invariant DrawColumns(pixel, v0, x, y, c0, row, col) == Ok(Canvas(gfx[..], v[Flag]))
        invariant v[..] == v0[Flag := v[Flag]]
      {
        var index := v[x] as int + col + (v[y] as int + row) * 64;
        if SpriteBit(pixel, col) {
          if index >= GfxSize {
            Drawing.ColumnFaultPersists(pixel, v0, x, y, c0, row, col + 1, width);
            return Failure(ScreenOutOfBounds(index));
          }
          if gfx[index] == 1 {
            v[Flag] := 1;
          }
          gfx[index] := Flip(gfx[index]);
        }
      }
      r := Success;
    }

    /** `get_gfx` (src/chip8.rs:560-562): a copy of the framebuffer. */
    method GetGfx() returns (g: seq<Byte>)
      requires Valid()
      ensures g == State().gfx
    {
      g := gfx[..];
    }

    /** `update_keystate` (src/chip8.rs:564-566). */
    method UpdateKeystate(keys: seq<Byte>)
      requires Valid() && |keys| == KeyCount
      modifies key
      ensures State() == old(State()).(key := keys)
    {
      forall k | 0 <= k < KeyCount {
        key[k] := keys[k];
      }
      assert key[..] == keys;
    }

    /** `set_register_to_keypress` (src/chip8.rs:568-570): index vregIndex of the
        register file, which panics beyond VF. */
    method SetRegisterToKeypress(vregIndex: nat, keyIndex: Byte) returns (r: Outcome)
      requires Valid()
      modifies v
      ensures r.Success? <==> vregIndex < RegisterCount
      ensures r.Failure? ==> r.fault == RegisterOutOfBounds(vregIndex) && State() == old(State())
      ensures r.Success? ==> State() == old(State()).(v := old(v[..])[vregIndex := keyIndex])
    {
      if vregIndex >= RegisterCount {
        return Failure(RegisterOutOfBounds(vregIndex));
      }
      v[vregIndex] := keyIndex;
      r := Success;
    }

    /** `check_draw_sema` (src/chip8.rs:572-578): reports and clears the draw flag. */
    method CheckDrawSema() returns (b: bool)
      modifies this
      ensures b == old(drawSema) && !drawSema
      ensures State() == old(State()).(drawSema := false)
    {
      b := drawSema;
      if drawSema {
        drawSema := false;
      }
    }

    /** `check_key_sema` (src/chip8.rs:580-586): reports and clears the key-wait flag. */
    method CheckKeySema() returns (b: bool)
      modifies this
      ensures b == old(keySema) && !keySema
      ensures State() == old(State()).(keySema := false)
    {
      b := keySema;
      if keySema {
        keySema := false;
      }
    }
  }
}
