/** Which parts of the machine each instruction of src/chip8.rs:136-550 may change, how far
    the sequential ones move the program counter, and two invariants every cycle keeps:
    the stack pointer stays within the stack and every framebuffer cell stays 0 or 1. */
module Frames {
  import opened ChipTypes
  import opened Opcodes
  import opened Semantics

  /** One field of the `Chip8` struct other than the registers. */
  datatype Field =
    | Opcode | Memory | Index | Pc | Gfx | DrawSema | KeySema | DelayTimer | SoundTimer
    | Stack | Sp | Keys

  /** m and r agree on every field outside w and on every register outside regs. */
  predicate Within(m: Machine, r: Machine, w: set<Field>, regs: set<Nibble>)
    requires WellFormed(m) && WellFormed(r)
  {
    (Opcode !in w ==> m.opcode == r.opcode) &&
    (Memory !in w ==> m.memory == r.memory) &&
    (forall k: Nibble :: k !in regs ==> m.v[k] == r.v[k]) &&
    (Index !in w ==> m.i == r.i) &&
    (Pc !in w ==> m.pc == r.pc) &&
    (Gfx !in w ==> m.gfx == r.gfx) &&
    (DrawSema !in w ==> m.drawSema == r.drawSema) &&
    (KeySema !in w ==> m.keySema == r.keySema) &&
    (DelayTimer !in w ==> m.delayTimer == r.delayTimer) &&
    (SoundTimer !in w ==> m.soundTimer == r.soundTimer) &&
    (Stack !in w ==> m.stack == r.stack) &&
    (Sp !in w ==> m.sp == r.sp) &&
    (Keys !in w ==> m.key == r.key)
  }

  /** The fields other than the registers that each instruction's arm writes. */
  function Writes(ins: Instr): set<Field> {
    match ins
    case ClearScreen => {Gfx, DrawSema, Pc}
    case Return => {Sp, Pc}
    case MachineCall(_) => {}
    case Call(_) => {Stack, Sp, Pc}
    case SetIndex(_) => {Index, Pc}
    case Draw(_, _, _) => {Gfx, DrawSema, Pc}
    case WaitKey(_) => {KeySema, Pc}
    case SetDelay(_) => {DelayTimer, Pc}
    case SetSound(_) => {SoundTimer, Pc}
    case AddIndex(_) => {Index, Pc}
    case FontChar(_) => {Index, Pc}
    case Bcd(_) => {Memory, Pc}
    case StoreRegs(_) => {Memory, Pc}
    case _ => {Pc}
  }

  /** The registers V0..VX. */
  function Through(x: Nibble): (s: set<Nibble>)
    ensures forall k: Nibble :: k in s <==> k <= x
  {
    if x == 0 then {0} else Through(x - 1) + {x}
  }

  /** The registers each instruction's arm writes. */
  function RegWrites(ins: Instr): set<Nibble> {
    match ins
    case LoadImm(x, _) => {x}
    case AddImm(x, _) => {x}
    case Move(x, _) => {x}
    case Or(x, _) => {x}
    case And(x, _) => {x}
    case Xor(x, _) => {x}
    case AddReg(x, _) => {x, Flag}
    case SubReg(x, _) => {x, Flag}
    case ShiftRight(x, _) => {x, Flag}
    case SubN(x, _) => {x, Flag}
    case ShiftLeft(x, _) => {x, Flag}
    case Random(x, _) => {x}
    case Draw(_, _, _) => {Flag}
    case GetDelay(x) => {x}
    case AddIndex(_) => {Flag}
    case LoadRegs(x) => Through(x)
    case _ => {}
  }

  /** The instructions that go on to the next one: all but the jumps, the call, the return
      and the skips. */
  predicate Sequential(ins: Instr) {
    !(ins.Jump? || ins.JumpV0? || ins.Call? || ins.Return? || ins.SkipEqImm? || ins.SkipNeImm? ||
      ins.SkipEqReg? || ins.SkipNeReg? || ins.SkipKeyDown? || ins.SkipKeyUp?)
  }

  /** What the frame lemmas promise of one arm's result e. */
  predicate Confined(m: Machine, ins: Instr, e: Result<Machine>)
    requires WellFormed(m) && m.pc + 1 < MemorySize
  {
    e.Ok? ==> WellFormed(e.value) && Within(m, e.value, Writes(ins), RegWrites(ins)) && (Sequential(ins) ==> e.value.pc == m.pc + 2)
  }

  lemma SystemFrame(m: Machine, ins: Instr)
    requires WellFormed(m) && m.pc + 1 < MemorySize && (ins.ClearScreen? || ins.Return? || ins.MachineCall?)
    ensures Confined(m, ins, ExecuteSystem(m, ins))
  {
  }

  lemma BitwiseFrame(m: Machine, ins: Instr)
    requires WellFormed(m) && m.pc + 1 < MemorySize && (ins.Move? || ins.Or? || ins.And? || ins.Xor?)
    ensures Confined(m, ins, ExecuteArith(m, ins))
  {
  }

  lemma AddSubFrame(m: Machine, ins: Instr)
    requires WellFormed(m) && m.pc + 1 < MemorySize && (ins.AddReg? || ins.SubReg? || ins.SubN?)
    ensures Confined(m, ins, ExecuteArith(m, ins))
  {
  }

  lemma ShiftFrame(m: Machine, ins: Instr)
    requires WellFormed(m) && m.pc + 1 < MemorySize && (ins.ShiftRight? || ins.ShiftLeft?)
    ensures Confined(m, ins, ExecuteArith(m, ins))
  {
  }

  lemma TimerFrame(m: Machine, ins: Instr)
    requires WellFormed(m) && m.pc + 1 < MemorySize && (ins.GetDelay? || ins.WaitKey? || ins.SetDelay? || ins.SetSound?)
    ensures Confined(m, ins, ExecuteTimerOrMemory(m, ins))
  {
  }

  lemma IndexFrame(m: Machine, ins: Instr)
    requires WellFormed(m) && m.pc + 1 < MemorySize && (ins.AddIndex? || ins.FontChar?)
    ensures Confined(m, ins, ExecuteTimerOrMemory(m, ins))
  {
  }

  lemma MemoryFrame(m: Machine, ins: Instr)
    requires WellFormed(m) && m.pc + 1 < MemorySize && (ins.Bcd? || ins.StoreRegs?)
    ensures Confined(m, ins, ExecuteTimerOrMemory(m, ins))
  {
  }

  lemma LoadRegsFrame(m: Machine, ins: Instr)
    requires WellFormed(m) && m.pc + 1 < MemorySize && ins.LoadRegs?
    ensures Confined(m, ins, ExecuteTimerOrMemory(m, ins))
  {
  }

  lemma JumpFrame(m: Machine, ins: Instr)
    requires WellFormed(m) && m.pc + 1 < MemorySize && (ins.Jump? || ins.Call? || ins.JumpV0?)
    ensures Confined(m, ins, ExecuteFlow(m, ins))
  {
  }

  lemma SkipFrame(m: Machine, ins: Instr)
    requires WellFormed(m) && m.pc + 1 < MemorySize && (ins.SkipEqImm? || ins.SkipNeImm? || ins.SkipEqReg? || ins.SkipNeReg?)
    ensures Confined(m, ins, ExecuteFlow(m, ins))
  {
  }

  lemma KeyFrame(m: Machine, ins: Instr)
    requires WellFormed(m) && m.pc + 1 < MemorySize && (ins.SkipKeyDown? || ins.SkipKeyUp?)
    ensures Confined(m, ins, ExecuteFlow(m, ins))
  {
  }

  lemma LoadFrame(m: Machine, ins: Instr, rand: Byte)
    requires WellFormed(m) && m.pc + 1 < MemorySize && (ins.LoadImm? || ins.AddImm? || ins.SetIndex? || ins.Random?)
    ensures Confined(m, ins, ExecuteLoadOrDraw(m, ins, rand))
  {
  }

  lemma DrawFrame(m: Machine, ins: Instr, rand: Byte)
    requires WellFormed(m) && m.pc + 1 < MemorySize && ins.Draw?
    ensures Confined(m, ins, ExecuteLoadOrDraw(m, ins, rand))
  {
  }

  lemma ArithFrame(m: Machine, ins: Instr)
    requires WellFormed(m) && m.pc + 1 < MemorySize && IsArith(ins)
    ensures Confined(m, ins, ExecuteArith(m, ins))
  {
    if ins.Move? || ins.Or? || ins.And? || ins.Xor? { BitwiseFrame(m, ins); }
    else if ins.AddReg? || ins.SubReg? || ins.SubN? { AddSubFrame(m, ins); }
    else { ShiftFrame(m, ins); }
  }

  lemma TimerOrMemoryFrame(m: Machine, ins: Instr)
    requires WellFormed(m) && m.pc + 1 < MemorySize && IsTimerOrMemory(ins)
    ensures Confined(m, ins, ExecuteTimerOrMemory(m, ins))
  {
    if ins.GetDelay? || ins.WaitKey? || ins.SetDelay? || ins.SetSound? { TimerFrame(m, ins); }
    else if ins.AddIndex? || ins.FontChar? { IndexFrame(m, ins); }
    else if ins.LoadRegs? { LoadRegsFrame(m, ins); }
    else { MemoryFrame(m, ins); }
  }

  lemma FlowFrame(m: Machine, ins: Instr)
    requires WellFormed(m) && m.pc + 1 < MemorySize && IsFlow(ins)
    ensures Confined(m, ins, ExecuteFlow(m, ins))
  {
    if ins.Jump? || ins.Call? || ins.JumpV0? { JumpFrame(m, ins); }
    else if ins.SkipKeyDown? || ins.SkipKeyUp? { KeyFrame(m, ins); }
    else { SkipFrame(m, ins); }
  }

  /** An instruction that succeeds changes only the fields it writes, and a sequential one
      moves to the next instruction. */
  lemma ExecuteFrame(m: Machine, ins: Instr, rand: Byte)
    requires WellFormed(m) && m.pc + 1 < MemorySize
    ensures Confined(m, ins, Execute(m, ins, rand))
  {
    if IsSystem(ins) { SystemFrame(m, ins); }
    else if IsArith(ins) { ArithFrame(m, ins); }
    else if IsTimerOrMemory(ins) { TimerOrMemoryFrame(m, ins); }
    else if IsFlow(ins) { FlowFrame(m, ins); }
    else if ins.Draw? { DrawFrame(m, ins, rand); }
    else { LoadFrame(m, ins, rand); }
  }

  // ---------------------------------------------------------------------------------------
  // Invariants of emulate_cycle

  /** Every framebuffer cell is 0 or 1. */
  predicate Binary(gfx: seq<Byte>) {
    forall p :: 0 <= p < |gfx| ==> gfx[p] <= 1
  }

  /** What every cycle keeps: the framebuffer is binary and the stack pointer is at most the
      stack size, so a return never reads past the stack. */
  predicate Sound(m: Machine) {
    WellFormed(m) && m.sp <= StackSize && Binary(m.gfx)
  }

  /** The pixels of one sprite row keep a binary framebuffer binary. */
  lemma {:induction false} ColumnsBinary(pixel: Byte, v: seq<Byte>, x: Nibble, y: Nibble, c: Canvas, row: nat, cols: nat)
    requires |v| == RegisterCount && |c.gfx| == GfxSize && cols <= SpriteWidth && Binary(c.gfx)
    ensures var d := DrawColumns(pixel, v, x, y, c, row, cols); d.Ok? ==> Binary(d.value.gfx)
    decreases cols
  {
    if cols > 0 {
      ColumnsBinary(pixel, v, x, y, c, row, cols - 1);
    }
  }

  /** One sprite row keeps a binary framebuffer binary. */
  lemma RowBinary(memory: seq<Byte>, i: int, v: seq<Byte>, x: Nibble, y: Nibble, c: Canvas, row: nat, width: nat)
    requires |v| == RegisterCount && |c.gfx| == GfxSize && width <= SpriteWidth && Binary(c.gfx)
    ensures var d := DrawRow(memory, i, v, x, y, c, row, width); d.Ok? ==> Binary(d.value.gfx)
  {
    var address := i + row;
    if 0 <= address < |memory| && address <= 0x7FFF {
      ColumnsBinary(memory[address], v, x, y, c, row, width);
    }
  }

  /** A draw leaves a binary framebuffer binary, whichever registers X and Y are. */
  lemma {:induction false} RowsBinary(memory: seq<Byte>, i: int, v: seq<Byte>, x: Nibble, y: Nibble, gfx: seq<Byte>, rows: nat, width: nat)
    requires |v| == RegisterCount && |gfx| == GfxSize && width <= SpriteWidth && Binary(gfx)
    ensures var d := DrawRows(memory, i, v, x, y, gfx, rows, width); d.Ok? ==> Binary(d.value.gfx)
    decreases rows
  {
    if rows > 0 {
      RowsBinary(memory, i, v, x, y, gfx, rows - 1, width);
      var prev := DrawRows(memory, i, v, x, y, gfx, rows - 1, width);
      if prev.Ok? {
        RowBinary(memory, i, v, x, y, prev.value, rows - 1, width);
      }
    }
  }

  /** `new` and `initialize` establish the invariant. */
  lemma InitialSound(m: Machine)
    ensures Sound(NewMachine()) && Sound(Initialized(m))
  {
  }

  /** Every instruction that succeeds keeps the invariant. */
  lemma ExecuteKeepsSound(m: Machine, ins: Instr, rand: Byte)
    requires Sound(m) && m.pc + 1 < MemorySize && Execute(m, ins, rand).Ok?
    ensures Sound(Execute(m, ins, rand).value)
  {
    ExecuteFrame(m, ins, rand);
    if ins.Draw? {
      assert Execute(m, ins, rand) == DrawEffect(m, ins.x, ins.y, ins.n);
      RowsBinary(m.memory, m.i, m.v, ins.x, ins.y, m.gfx, ins.n, SpriteWidth);
    } else if !ins.ClearScreen? {
      assert Gfx !in Writes(ins);
    }
    if !ins.Call? && !ins.Return? {
      assert Sp !in Writes(ins);
    }
  }

  /** Every cycle that succeeds keeps the invariant. */
  lemma StepKeepsSound(m: Machine, rand: Byte)
    requires Sound(m) && Step(m, rand).Ok?
    ensures Sound(Step(m, rand).value)
  {
    var op := Fetch(m).value;
    StepOfDecoded(m, rand);
    ExecuteKeepsSound(m.(opcode := op), Decode(op).value, rand);
  }
}
