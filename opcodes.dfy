/** The 35 CHIP-8 instructions and how `emulate_cycle` tells them apart (src/chip8.rs:136-549). */
module Opcodes {
  import opened ChipTypes

  /** One decoded instruction. Operand fields the source reads are kept; fields it ignores
      (the low nibble of 5XY0 and 9XY0, the Y of 8XY6 and 8XYE) are kept too, so that an
      opcode can be rebuilt from its decoding. */
  datatype Instr =
    | ClearScreen                          // 00E0
    | Return                               // 00EE
    | MachineCall(nnn: Addr)               // 0NNN
    | Jump(nnn: Addr)                      // 1NNN
    | Call(nnn: Addr)                      // 2NNN
    | SkipEqImm(x: Nibble, nn: Byte)       // 3XNN
    | SkipNeImm(x: Nibble, nn: Byte)       // 4XNN
    | SkipEqReg(x: Nibble, y: Nibble, n: Nibble)  // 5XY0
    | LoadImm(x: Nibble, nn: Byte)         // 6XNN
    | AddImm(x: Nibble, nn: Byte)          // 7XNN
    | Move(x: Nibble, y: Nibble)           // 8XY0
    | Or(x: Nibble, y: Nibble)             // 8XY1
    | And(x: Nibble, y: Nibble)            // 8XY2
    | Xor(x: Nibble, y: Nibble)            // 8XY3
    | AddReg(x: Nibble, y: Nibble)         // 8XY4
    | SubReg(x: Nibble, y: Nibble)         // 8XY5
    | ShiftRight(x: Nibble, y: Nibble)     // 8XY6
    | SubN(x: Nibble, y: Nibble)           // 8XY7
    | ShiftLeft(x: Nibble, y: Nibble)      // 8XYE
    | SkipNeReg(x: Nibble, y: Nibble, n: Nibble)  // 9XY0
    | SetIndex(nnn: Addr)                  // ANNN
    | JumpV0(nnn: Addr)                    // BNNN
    | Random(x: Nibble, nn: Byte)          // CXNN
    | Draw(x: Nibble, y: Nibble, n: Nibble)  // DXYN
    | SkipKeyDown(x: Nibble)               // EX9E
    | SkipKeyUp(x: Nibble)                 // EXA1
    | GetDelay(x: Nibble)                  // FX07
    | WaitKey(x: Nibble)                   // FX0A
    | SetDelay(x: Nibble)                  // FX15
    | SetSound(x: Nibble)                  // FX18
    | AddIndex(x: Nibble)                  // FX1E
    | FontChar(x: Nibble)                  // FX29
    | Bcd(x: Nibble)                       // FX33
    | StoreRegs(x: Nibble)                 // FX55
    | LoadRegs(x: Nibble)                  // FX65

  /** The opcode fields, as `(opcode & 0x0F00) >> 8` and its siblings compute them. */
  function Family(op: Word): Nibble { op / 0x1000 }
  function X(op: Word): Nibble { (op / 0x100) % 0x10 }
  function Y(op: Word): Nibble { (op / 0x10) % 0x10 }
  function N(op: Word): Nibble { op % 0x10 }
  function NN(op: Word): Byte { op % 0x100 }
  function NNN(op: Word): Addr { op % 0x1000 }

  /** A MachineCall can only stand for an address that is not 0E0 or 0EE. */
  predicate ValidInstr(ins: Instr) {
    ins.MachineCall? ==> ins.nnn != 0x0E0 && ins.nnn != 0x0EE
  }

  /** The opcodes that reach one of the four `panic!("opcode ... not found")` arms. */
  predicate Undefined(op: Word) {
    (Family(op) == 0x8 && N(op) in {0x8, 0x9, 0xA, 0xB, 0xC, 0xD, 0xF}) ||
    (Family(op) == 0xE && NN(op) != 0x9E && NN(op) != 0xA1) ||
    (Family(op) == 0xF && NN(op) !in {0x07, 0x0A, 0x15, 0x18, 0x1E, 0x29, 0x33, 0x55, 0x65})
  }

  /** The nested `match` of `emulate_cycle`, minus the effects. */
  function Decode(op: Word): (r: Result<Instr>)
    ensures r.Err? <==> Undefined(op)
    ensures r.Err? ==> r.fault == UnknownOpcode(op)
  {
    DecodeFields(op, Family(op), X(op), Y(op), N(op), NN(op), NNN(op))
  }

  /** The decoding of an opcode whose fields are f, x, y, n, nn and nnn. */
  function DecodeFields(op: Word, f: Nibble, x: Nibble, y: Nibble, n: Nibble, nn: Byte, nnn: Addr)
    : Result<Instr>
  {
    match f
    case 0x0 =>
      if nnn == 0x0E0 then Ok(ClearScreen)
      else if nnn == 0x0EE then Ok(Return)
      else Ok(MachineCall(nnn))
    case 0x1 => Ok(Jump(nnn))
    case 0x2 => Ok(Call(nnn))
    case 0x3 => Ok(SkipEqImm(x, nn))
    case 0x4 => Ok(SkipNeImm(x, nn))
    case 0x5 => Ok(SkipEqReg(x, y, n))
    case 0x6 => Ok(LoadImm(x, nn))
    case 0x7 => Ok(AddImm(x, nn))
    case 0x8 => DecodeArith(op, x, y, n)
    case 0x9 => Ok(SkipNeReg(x, y, n))
    case 0xA => Ok(SetIndex(nnn))
    case 0xB => Ok(JumpV0(nnn))
    case 0xC => Ok(Random(x, nn))
    case 0xD => Ok(Draw(x, y, n))
    case 0xE =>
      if nn == 0x9E then Ok(SkipKeyDown(x))
      else if nn == 0xA1 then Ok(SkipKeyUp(x))
      else Err(UnknownOpcode(op))
    case _ => DecodeMisc(op, x, nn)
  }

  /** The 8XYN family. */
  function DecodeArith(op: Word, x: Nibble, y: Nibble, n: Nibble): Result<Instr> {
    match n
    case 0x0 => Ok(Move(x, y))
    case 0x1 => Ok(Or(x, y))
    case 0x2 => Ok(And(x, y))
    case 0x3 => Ok(Xor(x, y))
    case 0x4 => Ok(AddReg(x, y))
    case 0x5 => Ok(SubReg(x, y))
    case 0x6 => Ok(ShiftRight(x, y))
    case 0x7 => Ok(SubN(x, y))
    case 0xE => Ok(ShiftLeft(x, y))
    case _ => Err(UnknownOpcode(op))
  }

  /** The FXNN family. */
  function DecodeMisc(op: Word, x: Nibble, nn: Byte): Result<Instr> {
    match nn
    case 0x07 => Ok(GetDelay(x))
    case 0x0A => Ok(WaitKey(x))
    case 0x15 => Ok(SetDelay(x))
    case 0x18 => Ok(SetSound(x))
    case 0x1E => Ok(AddIndex(x))
    case 0x29 => Ok(FontChar(x))
    case 0x33 => Ok(Bcd(x))
    case 0x55 => Ok(StoreRegs(x))
    case 0x65 => Ok(LoadRegs(x))
    case _ => Err(UnknownOpcode(op))
  }

  function Op(family: Nibble, x: Nibble, y: Nibble, n: Nibble): Word {
    0x1000 * family + 0x100 * x + 0x10 * y + n
  }

  /** The standard encoding of each instruction: the inverse of Decode. */
  function Encode(ins: Instr): Word {
    match ins
    case ClearScreen => 0x00E0
    case Return => 0x00EE
    case MachineCall(a) => a
    case Jump(a) => 0x1000 + a
    case Call(a) => 0x2000 + a
    case SkipEqImm(x, nn) => 0x3000 + 0x100 * x + nn
    case SkipNeImm(x, nn) => 0x4000 + 0x100 * x + nn
    case SkipEqReg(x, y, n) => Op(0x5, x, y, n)
    case LoadImm(x, nn) => 0x6000 + 0x100 * x + nn
    case AddImm(x, nn) => 0x7000 + 0x100 * x + nn
    case Move(x, y) => Op(0x8, x, y, 0x0)
    case Or(x, y) => Op(0x8, x, y, 0x1)
    case And(x, y) => Op(0x8, x, y, 0x2)
    case Xor(x, y) => Op(0x8, x, y, 0x3)
    case AddReg(x, y) => Op(0x8, x, y, 0x4)
    case SubReg(x, y) => Op(0x8, x, y, 0x5)
    case ShiftRight(x, y) => Op(0x8, x, y, 0x6)
    case SubN(x, y) => Op(0x8, x, y, 0x7)
    case ShiftLeft(x, y) => Op(0x8, x, y, 0xE)
    case SkipNeReg(x, y, n) => Op(0x9, x, y, n)
    case SetIndex(a) => 0xA000 + a
    case JumpV0(a) => 0xB000 + a
    case Random(x, nn) => 0xC000 + 0x100 * x + nn
    case Draw(x, y, n) => Op(0xD, x, y, n)
    case SkipKeyDown(x) => 0xE09E + 0x100 * x
    case SkipKeyUp(x) => 0xE0A1 + 0x100 * x
    case GetDelay(x) => 0xF007 + 0x100 * x
    case WaitKey(x) => 0xF00A + 0x100 * x
    case SetDelay(x) => 0xF015 + 0x100 * x
    case SetSound(x) => 0xF018 + 0x100 * x
    case AddIndex(x) => 0xF01E + 0x100 * x
    case FontChar(x) => 0xF029 + 0x100 * x
    case Bcd(x) => 0xF033 + 0x100 * x
    case StoreRegs(x) => 0xF055 + 0x100 * x
    case LoadRegs(x) => 0xF065 + 0x100 * x
  }

  /** An opcode is its four nibbles. */
  lemma Fields(op: Word)
    ensures op == Op(Family(op), X(op), Y(op), N(op))
    ensures NN(op) == 0x10 * Y(op) + N(op)
    ensures NNN(op) == 0x100 * X(op) + NN(op)
  {
    var a, b, c := op / 0x10, op / 0x100, op / 0x1000;
    assert op == 0x10 * a + op % 0x10;
    assert op == 0x100 * b + op % 0x100;
    assert op == 0x1000 * c + op % 0x1000;
    assert a == 0x10 * b + a % 0x10;
    assert b == 0x10 * c + b % 0x10;
  }

  /** The fields of an opcode built from four nibbles are those nibbles. */
  lemma FieldsOfOp(f: Nibble, x: Nibble, y: Nibble, n: Nibble)
    ensures var op := Op(f, x, y, n);
      Family(op) == f && X(op) == x && Y(op) == y && N(op) == n &&
      NN(op) == 0x10 * y + n && NNN(op) == 0x100 * x + 0x10 * y + n
  {
    var op := Op(f, x, y, n);
    Fields(op);
  }

  /** The fields of an opcode built from a family, a register and a byte. */
  lemma FieldsOfImm(f: Nibble, x: Nibble, nn: Byte)
    ensures var op := 0x1000 * f + 0x100 * x + nn;
      0 <= op < 0x1_0000 && Family(op) == f && X(op) == x && NN(op) == nn
  {
    var y, n := nn / 0x10, nn % 0x10;
    assert nn == 0x10 * y + n;
    FieldsOfOp(f, x, y, n);
  }

  /** The fields of an opcode built from a family and an address. */
  lemma FieldsOfAddr(f: Nibble, a: Addr)
    ensures var op := 0x1000 * f + a;
      0 <= op < 0x1_0000 && Family(op) == f && NNN(op) == a
  {
    var x, nn := a / 0x100, a % 0x100;
    assert a == 0x100 * x + nn;
    FieldsOfImm(f, x, nn);
    Fields(0x1000 * f + a);
  }

  /** Decoding an opcode built from four nibbles. */
  lemma DecodeOp(f: Nibble, x: Nibble, y: Nibble, n: Nibble)
    ensures var op := Op(f, x, y, n);
      Decode(op) == DecodeFields(op, f, x, y, n, 0x10 * y + n, 0x100 * x + 0x10 * y + n)
  {
    FieldsOfOp(f, x, y, n);
  }

  /** Decoding an opcode built from a family, a register and a byte. */
  lemma DecodeImm(f: Nibble, x: Nibble, nn: Byte)
    ensures var op := 0x1000 * f + 0x100 * x + nn;
      0 <= op < 0x1_0000 && Decode(op) == DecodeFields(op, f, x, Y(op), N(op), nn, NNN(op))
  {
    FieldsOfImm(f, x, nn);
  }

  /** Decoding an opcode built from a family and an address. */
  lemma DecodeAddr(f: Nibble, a: Addr)
    ensures var op := 0x1000 * f + a;
      0 <= op < 0x1_0000 && Decode(op) == DecodeFields(op, f, X(op), Y(op), N(op), NN(op), a)
  {
    FieldsOfAddr(f, a);
  }

  /** Every instruction decodes back from its encoding. */
  lemma DecodeEncode(ins: Instr)
    requires ValidInstr(ins)
    ensures Decode(Encode(ins)) == Ok(ins)
  {
    if ins.ClearScreen? || ins.Return? {
      DecodeEncodeSys(ins);
    } else if ins.MachineCall? {
      DecodeEncodeMachineCall(ins);
    } else if ins.Jump? || ins.Call? {
      DecodeEncodeJumps(ins);
    } else if ins.SkipEqImm? || ins.SkipNeImm? {
      DecodeEncodeSkipImm(ins);
    } else if ins.SkipEqReg? || ins.SkipNeReg? {
      DecodeEncodeSkipReg(ins);
    } else if ins.LoadImm? || ins.AddImm? {
      DecodeEncodeImm(ins);
    } else if ins.Move? || ins.Or? {
      DecodeEncodeMove(ins);
    } else if ins.And? || ins.Xor? {
      DecodeEncodeLogic(ins);
    } else if ins.AddReg? || ins.SubReg? {
      DecodeEncodeArith(ins);
    } else if ins.ShiftRight? || ins.ShiftLeft? {
      DecodeEncodeShift(ins);
    } else if ins.SetIndex? || ins.JumpV0? {
      DecodeEncodeIndex(ins);
    } else if ins.Random? || ins.SubN? {
      DecodeEncodeRandom(ins);
    } else if ins.Draw? || ins.SkipKeyDown? {
      DecodeEncodeDraw(ins);
    } else if ins.SkipKeyUp? || ins.WaitKey? {
      DecodeEncodeKeys(ins);
    } else if ins.GetDelay? || ins.SetDelay? {
      DecodeEncodeDelay(ins);
    } else if ins.SetSound? || ins.AddIndex? {
      DecodeEncodeSound(ins);
    } else if ins.FontChar? || ins.Bcd? {
      DecodeEncodeFont(ins);
    } else {
      DecodeEncodeBlock(ins);
    }
  }

  /** DecodeEncode for 00E0 and 00EE. */
  lemma DecodeEncodeSys(ins: Instr)
    requires ins.ClearScreen? || ins.Return?
    ensures Decode(Encode(ins)) == Ok(ins)
  {
    match ins
    case ClearScreen => DecodeOp(0x0, 0x0, 0xE, 0x0);
    case Return => DecodeOp(0x0, 0x0, 0xE, 0xE);
  }

  /** DecodeEncode for 0NNN. */
  lemma DecodeEncodeMachineCall(ins: Instr)
    requires ValidInstr(ins)
    requires ins.MachineCall?
    ensures Decode(Encode(ins)) == Ok(ins)
  {
    var a := ins.nnn;
    DecodeAddr(0x0, a);
  }

  /** DecodeEncode for 1NNN and 2NNN. */
  lemma DecodeEncodeJumps(ins: Instr)
    requires ins.Jump? || ins.Call?
    ensures Decode(Encode(ins)) == Ok(ins)
  {
    match ins
    case Jump(a) => DecodeAddr(0x1, a);
    case Call(a) => DecodeAddr(0x2, a);
  }

  /** DecodeEncode for 3XNN and 4XNN. */
  lemma DecodeEncodeSkipImm(ins: Instr)
    requires ins.SkipEqImm? || ins.SkipNeImm?
    ensures Decode(Encode(ins)) == Ok(ins)
  {
    match ins
    case SkipEqImm(x, nn) => DecodeImm(0x3, x, nn);
    case SkipNeImm(x, nn) => DecodeImm(0x4, x, nn);
  }

  /** DecodeEncode for 5XY0 and 9XY0. */
  lemma DecodeEncodeSkipReg(ins: Instr)
    requires ins.SkipEqReg? || ins.SkipNeReg?
    ensures Decode(Encode(ins)) == Ok(ins)
  {
    match ins
    case SkipEqReg(x, y, n) => DecodeOp(0x5, x, y, n);
    case SkipNeReg(x, y, n) => DecodeOp(0x9, x, y, n);
  }

  /** DecodeEncode for 6XNN and 7XNN. */
  lemma DecodeEncodeImm(ins: Instr)
    requires ins.LoadImm? || ins.AddImm?
    ensures Decode(Encode(ins)) == Ok(ins)
  {
    match ins
    case LoadImm(x, nn) => DecodeImm(0x6, x, nn);
    case AddImm(x, nn) => DecodeImm(0x7, x, nn);
  }

  /** DecodeEncode for 8XY0 and 8XY1. */
  lemma DecodeEncodeMove(ins: Instr)
    requires ins.Move? || ins.Or?
    ensures Decode(Encode(ins)) == Ok(ins)
  {
    match ins
    case Move(x, y) => DecodeOp(0x8, x, y, 0x0);
    case Or(x, y) => DecodeOp(0x8, x, y, 0x1);
  }

  /** DecodeEncode for 8XY2 and 8XY3. */
  lemma DecodeEncodeLogic(ins: Instr)
    requires ins.And? || ins.Xor?
    ensures Decode(Encode(ins)) == Ok(ins)
  {
    match ins
    case And(x, y) => DecodeOp(0x8, x, y, 0x2);
    case Xor(x, y) => DecodeOp(0x8, x, y, 0x3);
  }

  /** DecodeEncode for 8XY4 and 8XY5. */
  lemma DecodeEncodeArith(ins: Instr)
    requires ins.AddReg? || ins.SubReg?
    ensures Decode(Encode(ins)) == Ok(ins)
  {
    match ins
    case AddReg(x, y) => DecodeOp(0x8, x, y, 0x4);
    case SubReg(x, y) => DecodeOp(0x8, x, y, 0x5);
  }

  /** DecodeEncode for 8XY6 and 8XYE. */
  lemma DecodeEncodeShift(ins: Instr)
    requires ins.ShiftRight? || ins.ShiftLeft?
    ensures Decode(Encode(ins)) == Ok(ins)
  {
    match ins
    case ShiftRight(x, y) => DecodeOp(0x8, x, y, 0x6);
    case ShiftLeft(x, y) => DecodeOp(0x8, x, y, 0xE);
  }

  /** DecodeEncode for ANNN and BNNN. */
  lemma DecodeEncodeIndex(ins: Instr)
    requires ins.SetIndex? || ins.JumpV0?
    ensures Decode(Encode(ins)) == Ok(ins)
  {
    match ins
    case SetIndex(a) => DecodeAddr(0xA, a);
    case JumpV0(a) => DecodeAddr(0xB, a);
  }

  /** DecodeEncode for CXNN and 8XY7. */
  lemma DecodeEncodeRandom(ins: Instr)
    requires ins.Random? || ins.SubN?
    ensures Decode(Encode(ins)) == Ok(ins)
  {
    match ins
    case Random(x, nn) => DecodeImm(0xC, x, nn);
    case SubN(x, y) => DecodeOp(0x8, x, y, 0x7);
  }

  /** DecodeEncode for DXYN and EX9E. */
  lemma DecodeEncodeDraw(ins: Instr)
    requires ins.Draw? || ins.SkipKeyDown?
    ensures Decode(Encode(ins)) == Ok(ins)
  {
    match ins
    case Draw(x, y, n) => DecodeOp(0xD, x, y, n);
    case SkipKeyDown(x) => DecodeImm(0xE, x, 0x9E);
  }

  /** DecodeEncode for EXA1 and FX0A. */
  lemma DecodeEncodeKeys(ins: Instr)
    requires ins.SkipKeyUp? || ins.WaitKey?
    ensures Decode(Encode(ins)) == Ok(ins)
  {
    match ins
    case SkipKeyUp(x) => DecodeImm(0xE, x, 0xA1);
    case WaitKey(x) => DecodeImm(0xF, x, 0x0A);
  }

  /** DecodeEncode for FX07 and FX15. */
  lemma DecodeEncodeDelay(ins: Instr)
    requires ins.GetDelay? || ins.SetDelay?
    ensures Decode(Encode(ins)) == Ok(ins)
  {
    match ins
    case GetDelay(x) => DecodeImm(0xF, x, 0x07);
    case SetDelay(x) => DecodeImm(0xF, x, 0x15);
  }

  /** DecodeEncode for FX18 and FX1E. */
  lemma DecodeEncodeSound(ins: Instr)
    requires ins.SetSound? || ins.AddIndex?
    ensures Decode(Encode(ins)) == Ok(ins)
  {
    match ins
    case SetSound(x) => DecodeImm(0xF, x, 0x18);
    case AddIndex(x) => DecodeImm(0xF, x, 0x1E);
  }

  /** DecodeEncode for FX29 and FX33. */
  lemma DecodeEncodeFont(ins: Instr)
    requires ins.FontChar? || ins.Bcd?
    ensures Decode(Encode(ins)) == Ok(ins)
  {
    match ins
    case FontChar(x) => DecodeImm(0xF, x, 0x29);
    case Bcd(x) => DecodeImm(0xF, x, 0x33);
  }

  /** DecodeEncode for FX55 and FX65. */
  lemma DecodeEncodeBlock(ins: Instr)
    requires ins.StoreRegs? || ins.LoadRegs?
    ensures Decode(Encode(ins)) == Ok(ins)
  {
    match ins
    case StoreRegs(x) => DecodeImm(0xF, x, 0x55);
    case LoadRegs(x) => DecodeImm(0xF, x, 0x65);
  }

  /** Decoding loses nothing: a decoded opcode re-encodes to itself. */
  lemma EncodeDecode(op: Word)
    requires Decode(op).Ok?
    ensures ValidInstr(Decode(op).value) && Encode(Decode(op).value) == op
  {
    Fields(op);
    if Family(op) == 0x8 {
      EncodeDecodeArith(op);
    } else if Family(op) == 0xF {
      EncodeDecodeMisc(op);
    } else {
      EncodeDecodeOthers(op);
    }
  }

  /** EncodeDecode for the 8XYN family. */
  lemma EncodeDecodeArith(op: Word)
    requires Family(op) == 0x8 && op == Op(0x8, X(op), Y(op), N(op))
    requires DecodeArith(op, X(op), Y(op), N(op)).Ok?
    ensures Encode(DecodeArith(op, X(op), Y(op), N(op)).value) == op
  {
  }

  /** EncodeDecode for the FXNN family. */
  lemma EncodeDecodeMisc(op: Word)
    requires Family(op) == 0xF && op == 0xF000 + 0x100 * X(op) + NN(op)
    requires DecodeMisc(op, X(op), NN(op)).Ok?
    ensures Encode(DecodeMisc(op, X(op), NN(op)).value) == op
  {
  }

  /** EncodeDecode for the remaining families. */
  lemma EncodeDecodeOthers(op: Word)
    requires Family(op) != 0x8 && Family(op) != 0xF && Decode(op).Ok?
    requires op == Op(Family(op), X(op), Y(op), N(op))
    requires NN(op) == 0x10 * Y(op) + N(op) && NNN(op) == 0x100 * X(op) + NN(op)
    ensures ValidInstr(Decode(op).value) && Encode(Decode(op).value) == op
  {
  }
}
