/** What the instructions of src/chip8.rs promise, stated over the value view: the flags the
    8XYN arithmetic leaves, the digits of FX33, the round trips of FX55/FX65 and of a call
    and its return, the font, and the timers. */
module Properties {
  import opened ChipTypes
  import opened Opcodes
  import opened Semantics

  // ---------------------------------------------------------------------------------------
  // initialize and load

  /** After `initialize`, glyph d of the font occupies the five bytes from FontOffset + 5 * d,
      every other byte of memory is zero, and the program counter is at ProgramStart. */
  lemma InitializedLayout(m: Machine)
    ensures var r := Initialized(m);
      WellFormed(r) && r.pc == ProgramStart && r.sp == 0 && r.i == 0 &&
      r.memory[FontOffset..FontOffset + |FontSet|] == FontSet &&
      (forall a :: 0 <= a < MemorySize && !(FontOffset <= a < FontOffset + |FontSet|) ==> r.memory[a] == 0) &&
      (forall p :: 0 <= p < GfxSize ==> r.gfx[p] == 0) && (forall k :: 0 <= k < StackSize ==> r.stack[k] == 0) &&
      (forall k :: 0 <= k < RegisterCount ==> r.v[k] == 0) && (forall k :: 0 <= k < KeyCount ==> r.key[k] == 0) &&
      r.delayTimer == m.delayTimer && r.soundTimer == m.soundTimer &&
      r.drawSema == m.drawSema && r.keySema == m.keySema
  {
    var r := Initialized(m);
    assert r.memory[FontOffset..FontOffset + |FontSet|] == FontSet by {
      forall k | 0 <= k < |FontSet|
        ensures r.memory[FontOffset + k] == FontSet[k]
      {
      }
    }
  }

  /** A ROM that fits is copied to ProgramStart, the font below it survives, and the first
      fetch reads the ROM's first two bytes. */
  lemma LoadAfterInitialize(m: Machine, rom: seq<Byte>)
    requires 2 <= |rom| && ProgramStart + |rom| <= MemorySize
    ensures var r := Initialized(m).(memory := LoadedMemory(FontMemory(), rom));
      LoadOutcome(rom) == Success &&
      r.memory[ProgramStart..ProgramStart + |rom|] == rom &&
      r.memory[FontOffset..FontOffset + |FontSet|] == FontSet &&
      Fetch(r) == Ok(rom[0] as int * 0x100 + rom[1])
  {
    var r := Initialized(m).(memory := LoadedMemory(FontMemory(), rom));
    InitializedLayout(m);
    assert r.memory[ProgramStart..ProgramStart + |rom|] == rom by {
      forall k | 0 <= k < |rom|
        ensures r.memory[ProgramStart + k] == rom[k]
      {
      }
    }
    assert r.memory[FontOffset..FontOffset + |FontSet|] == FontSet by {
      forall k | 0 <= k < |FontSet|
        ensures r.memory[FontOffset + k] == FontSet[k]
      {
        assert r.memory[FontOffset + k] == FontMemory()[FontOffset + k];
      }
    }
  }

  // ---------------------------------------------------------------------------------------
  // FX29

  /** Any stretch of the font reads the same in the memory that `initialize` writes. */
  lemma FontSlice(k: nat, len: nat)
    requires k + len <= |FontSet|
    ensures FontMemory()[FontOffset + k..FontOffset + k + len] == FontSet[k..k + len]
  {
    var f := FontMemory();
    FontInMemory();
    assert f[FontOffset + k..FontOffset + k + len] == f[FontOffset..FontOffset + |FontSet|][k..k + len];
  }

  /** The memory that `initialize` writes holds the font at FontOffset. */
  lemma FontInMemory()
    ensures FontMemory()[FontOffset..FontOffset + |FontSet|] == FontSet
  {
    var z := Zeros(FontOffset);
    assert FontMemory()[..FontOffset + |FontSet|] == z + FontSet;
  }

  /** FX29 succeeds exactly when `v[x] * 5 + 80` fits in a u8, that is for VX < 36; for a hex
      digit it points I at that digit's glyph in the font memory that `initialize` writes. */
  lemma FontCharGlyph(m: Machine, x: Nibble)
    requires WellFormed(m) && m.pc + 1 < MemorySize
    ensures var r := FontCharEffect(m, x);
      (r.Ok? <==> m.v[x] < 36) &&
      (r.Ok? && m.v[x] < 16 ==>
        0 <= r.value.i && r.value.i + 5 <= MemorySize &&
        FontMemory()[r.value.i..r.value.i + 5] == FontSet[5 * m.v[x]..5 * m.v[x] + 5])
  {
    var r := FontCharEffect(m, x);
    if r.Ok? && m.v[x] < 16 {
      var d := m.v[x] as nat;
      assert r.value.i == FontOffset + 5 * d;
      FontSlice(5 * d, 5);
    }
  }

  // ---------------------------------------------------------------------------------------
  // 8XYN, for X and Y other than F

  /** Every register other than X and VF keeps its value. */
  predicate OthersKept(m: Machine, r: Machine, x: Nibble)
    requires WellFormed(m) && WellFormed(r)
  {
    forall k :: 0 <= k < RegisterCount && k != x && k != Flag ==> r.v[k] == m.v[k]
  }

  /** 7XNN adds without touching VF, wrapping modulo 256: 0x01 + 0xFF gives 0x00. */
  lemma AddImmWraps(m: Machine, x: Nibble, nn: Byte)
    requires WellFormed(m) && m.pc + 1 < MemorySize
    ensures var r := ExecuteLoadOrDraw(m, AddImm(x, nn), 0);
      r.Ok? && (r.value.v[x] as int - m.v[x] - nn) % 0x100 == 0 &&
      (forall k :: 0 <= k < RegisterCount && k != x ==> r.value.v[k] == m.v[k]) &&
      r.value == m.(v := r.value.v, pc := m.pc + 2)
    ensures m.v[x] == 0x01 && nn == 0xFF ==> ExecuteLoadOrDraw(m, AddImm(x, nn), 0).value.v[x] == 0
  {
  }

  /** 8XY4: VF is the carry out of the u8 addition and VX its low byte. */
  lemma AddRegCarry(m: Machine, x: Nibble, y: Nibble)
    requires WellFormed(m) && m.pc + 1 < MemorySize && x != Flag && y != Flag
    ensures var r := AddRegEffect(m, x, y);
      r.v[Flag] as int * 0x100 + r.v[x] == m.v[x] as int + m.v[y] && OthersKept(m, r, x) && r.pc == m.pc + 2
  {
  }

  /** 8XY4 with X = F: the flag is written first and then overwritten by the low byte of the
      sum, which adds VY to the new flag rather than to the old VF. */
  lemma AddRegIntoFlag(m: Machine, y: Nibble)
    requires WellFormed(m) && m.pc + 1 < MemorySize && y != Flag
    ensures var r, carry := AddRegEffect(m, Flag, y), if m.v[Flag] as int + m.v[y] > 0xFF then 1 else 0;
      r.v[Flag] == (carry + m.v[y] as int) % 0x100 &&
      (forall k :: 0 <= k < RegisterCount && k != Flag ==> r.v[k] == m.v[k]) && r.pc == m.pc + 2
  {
  }

  /** 8XY4 with Y = F: the carry is written to VF first, so VX receives VX plus the new
      carry rather than plus the old VF; with X = F as well, VF ends as twice the carry. */
  lemma AddRegFromFlag(m: Machine, x: Nibble)
    requires WellFormed(m) && m.pc + 1 < MemorySize
    ensures var r, carry := AddRegEffect(m, x, Flag), if m.v[x] as int + m.v[Flag] > 0xFF then 1 else 0;
      if x == Flag then r == m.(v := m.v[Flag := 2 * carry], pc := m.pc + 2)
      else r == m.(v := m.v[Flag := carry][x := (m.v[x] as int + carry) % 0x100], pc := m.pc + 2)
  {
  }

  /** 8XY5 as written: VF is the no-borrow flag of VX - VY, but VX receives the sum. With
      VX = 5 and VY = 3, VX becomes 8 where a subtraction would give 2. */
  lemma SubRegAdds(m: Machine, x: Nibble, y: Nibble)
    requires WellFormed(m) && m.pc + 1 < MemorySize && x != Flag && y != Flag
    ensures var r := SubRegEffect(m, x, y);
      (r.v[Flag] == 1 <==> m.v[x] >= m.v[y]) && r.v[Flag] <= 1 &&
      (r.v[x] as int - m.v[x] - m.v[y]) % 0x100 == 0 && OthersKept(m, r, x)
    ensures m.v[x] == 5 && m.v[y] == 3 ==> SubRegEffect(m, x, y).v[x] == 8
  {
  }

  /** 8XY5 when X or Y is F: the flag is written first, so the sum stored afterwards adds
      the new flag in place of the old VF; 8FF5 always leaves VF = 2. */
  lemma SubRegWithFlag(m: Machine, x: Nibble, y: Nibble)
    requires WellFormed(m) && m.pc + 1 < MemorySize && (x == Flag || y == Flag)
    ensures var r, flag := SubRegEffect(m, x, y), if m.v[x] >= m.v[y] then 1 else 0;
      if x == Flag && y == Flag then r == m.(v := m.v[Flag := 2], pc := m.pc + 2)
      else if x == Flag then r == m.(v := m.v[Flag := (flag + m.v[y] as int) % 0x100], pc := m.pc + 2)
      else r == m.(v := m.v[Flag := flag][x := (m.v[x] as int + flag) % 0x100], pc := m.pc + 2)
  {
  }

  /** 8XY7: VF says whether VY - VX did not borrow, and VX is that difference modulo 256. */
  lemma SubNBorrow(m: Machine, x: Nibble, y: Nibble)
    requires WellFormed(m) && m.pc + 1 < MemorySize && x != Flag && y != Flag
    ensures var r := SubNEffect(m, x, y);
      r.v[Flag] <= 1 &&
      m.v[y] as int == r.v[x] as int + m.v[x] - 0x100 * (1 - r.v[Flag] as int) && OthersKept(m, r, x)
  {
  }

  /** 8XY7 when X or Y is F: the flag is written first and the difference is taken with the
      new flag in place of the old VF; 8FF7 always leaves VF = 0. */
  lemma SubNWithFlag(m: Machine, x: Nibble, y: Nibble)
    requires WellFormed(m) && m.pc + 1 < MemorySize && (x == Flag || y == Flag)
    ensures var r, flag := SubNEffect(m, x, y), if m.v[y] >= m.v[x] then 1 else 0;
      if x == Flag && y == Flag then r == m.(v := m.v[Flag := 0], pc := m.pc + 2)
      else if x == Flag then r == m.(v := m.v[Flag := (m.v[y] as int - flag) % 0x100], pc := m.pc + 2)
      else r == m.(v := m.v[Flag := flag][x := (flag - m.v[x] as int) % 0x100], pc := m.pc + 2)
  {
  }

  /** 8XY6: VF receives the bit shifted out, so VX is recovered as 2 * VX + VF. */
  lemma ShiftRightBit(m: Machine, x: Nibble)
    requires WellFormed(m) && m.pc + 1 < MemorySize && x != Flag
    ensures var r := ShiftRightEffect(m, x);
      r.v[Flag] <= 1 && r.v[x] as int * 2 + r.v[Flag] == m.v[x] && OthersKept(m, r, x)
    ensures m.v[x] == 0x81 ==> ShiftRightEffect(m, x).v[x] == 0x40 && ShiftRightEffect(m, x).v[Flag] == 1
  {
  }

  /** 8FF6: the low bit of VF is written to VF and then shifted out, so VF always ends 0. */
  lemma ShiftRightIntoFlag(m: Machine)
    requires WellFormed(m) && m.pc + 1 < MemorySize
    ensures ShiftRightEffect(m, Flag) == m.(v := m.v[Flag := 0], pc := m.pc + 2)
  {
  }

  /** 8XYE: VF receives the bit shifted out of the top, so VF * 256 + VX is 2 * VX. */
  lemma ShiftLeftBit(m: Machine, x: Nibble)
    requires WellFormed(m) && m.pc + 1 < MemorySize && x != Flag
    ensures var r := ShiftLeftEffect(m, x);
      r.v[Flag] <= 1 && r.v[Flag] as int * 0x100 + r.v[x] == m.v[x] as int * 2 && OthersKept(m, r, x)
    ensures m.v[x] == 0x81 ==> ShiftLeftEffect(m, x).v[x] == 0x02 && ShiftLeftEffect(m, x).v[Flag] == 1
  {
  }

  /** 8FFE: the top bit of VF is written to VF and then doubled, so VF ends 0 or 2. */
  lemma ShiftLeftIntoFlag(m: Machine)
    requires WellFormed(m) && m.pc + 1 < MemorySize
    ensures ShiftLeftEffect(m, Flag) == m.(v := m.v[Flag := 2 * (m.v[Flag] / 0x80)], pc := m.pc + 2)
  {
  }

  /** FX1E: VF flags an i16 overflow of I + VX, and I then holds the sum modulo 2^16. */
  lemma AddIndexOverflow(m: Machine, x: Nibble)
    requires WellFormed(m) && m.pc + 1 < MemorySize && x != Flag
    ensures var r := AddIndexEffect(m, x);
      (r.v[Flag] == 1 <==> m.i as int + m.v[x] > 0x7FFF) && r.v[Flag] <= 1 &&
      r.i == m.i as int + m.v[x] - r.v[Flag] as int * 0x1_0000 && OthersKept(m, r, x) && r.v[x] == m.v[x]
  {
  }

  /** FX1E with X = F: the overflow flag is computed from the old VF, but the flag itself,
      0 or 1, is what is then added to I; I = 0x7FFF with the flag set wraps to -0x8000. */
  lemma AddIndexIntoFlag(m: Machine)
    requires WellFormed(m) && m.pc + 1 < MemorySize
    ensures var r, flag := AddIndexEffect(m, Flag), if m.i as int + m.v[Flag] > 0x7FFF then 1 else 0;
      r == m.(v := m.v[Flag := flag], i := if m.i + flag > 0x7FFF then m.i + flag - 0x1_0000 else m.i + flag,
              pc := m.pc + 2)
    ensures m.i == 0x7FFF && m.v[Flag] != 0 ==> AddIndexEffect(m, Flag).i == -0x8000
  {
  }

  // ---------------------------------------------------------------------------------------
  // FX33, FX55, FX65

  /** FX33 succeeds exactly when I..I+2 lie in memory, and then writes there three decimal
      digits that spell VX. */
  lemma BcdDigits(m: Machine, x: Nibble)
    requires WellFormed(m) && m.pc + 1 < MemorySize
    ensures var r := BcdEffect(m, x);
      (r.Ok? <==> 0 <= m.i && m.i + 2 < MemorySize) &&
      (r.Ok? ==>
        var d := r.value.memory;
        d[m.i] < 10 && d[m.i + 1] < 10 && d[m.i + 2] < 10 &&
        d[m.i] as int * 100 + d[m.i + 1] as int * 10 + d[m.i + 2] == m.v[x] &&
        forall a :: 0 <= a < MemorySize && !(m.i <= a <= m.i + 2) ==> d[a] == m.memory[a])
  {
  }

  /** FX55 succeeds exactly when I..I+X lie in memory, and then memory[I + k] holds Vk for
      k <= X while every other byte of memory, the registers and I are unchanged. */
  lemma StoreRegsCopies(m: Machine, x: Nibble)
    requires WellFormed(m) && m.pc + 1 < MemorySize
    ensures var r := StoreRegsEffect(m, x);
      (r.Ok? <==> 0 <= m.i && m.i + x < MemorySize) &&
      (r.Err? ==> r.fault == MemoryOutOfBounds(if m.i < 0 || m.i >= MemorySize then m.i else MemorySize)) &&
      (r.Ok? ==>
        (forall k :: 0 <= k <= x ==> r.value.memory[m.i + k] == m.v[k]) &&
        (forall a :: 0 <= a < MemorySize && !(m.i <= a <= m.i + x) ==> r.value.memory[a] == m.memory[a]) &&
        r.value == m.(memory := r.value.memory, pc := m.pc + 2))
  {
  }

  /** FX65 succeeds exactly when I..I+X lie in memory, and then Vk holds memory[I + k] for
      k <= X while the other registers, memory and I are unchanged. */
  lemma LoadRegsCopies(m: Machine, x: Nibble)
    requires WellFormed(m) && m.pc + 1 < MemorySize
    ensures var r := LoadRegsEffect(m, x);
      (r.Ok? <==> 0 <= m.i && m.i + x < MemorySize) &&
      (r.Err? ==> r.fault == MemoryOutOfBounds(if m.i < 0 || m.i >= MemorySize then m.i else MemorySize)) &&
      (r.Ok? ==>
        (forall k :: 0 <= k <= x ==> r.value.v[k] == m.memory[m.i + k]) &&
        (forall k :: x < k < RegisterCount ==> r.value.v[k] == m.v[k]) &&
        r.value == m.(v := r.value.v, pc := m.pc + 2))
  {
  }

  /** FX55 followed by FX65 with the same X and I gives back the registers, and FX65
      followed by FX55 gives back memory. Both succeed exactly when I..I+X lie in memory. */
  lemma StoreThenLoad(m: Machine, x: Nibble)
    requires WellFormed(m) && m.pc + 3 < MemorySize
    ensures var s := StoreRegsEffect(m, x);
      (s.Ok? <==> 0 <= m.i && m.i + x < MemorySize) &&
      (s.Ok? ==> var l := LoadRegsEffect(s.value, x); l.Ok? && l.value.v == m.v && l.value.pc == m.pc + 4)
  {
    var s := StoreRegsEffect(m, x);
    if s.Ok? {
      var l := LoadRegsEffect(s.value, x);
      assert l.value.v == m.v by {
        forall k | 0 <= k < RegisterCount
          ensures l.value.v[k] == m.v[k]
        {
        }
      }
    }
  }

  lemma LoadThenStore(m: Machine, x: Nibble)
    requires WellFormed(m) && m.pc + 3 < MemorySize
    ensures var l := LoadRegsEffect(m, x);
      (l.Ok? <==> 0 <= m.i && m.i + x < MemorySize) &&
      (l.Ok? ==> var s := StoreRegsEffect(l.value, x); s.Ok? && s.value.memory == m.memory && s.value.pc == m.pc + 4)
  {
    var l := LoadRegsEffect(m, x);
    if l.Ok? {
      var s := StoreRegsEffect(l.value, x);
      assert s.value.memory == m.memory by {
        forall a | 0 <= a < MemorySize
          ensures s.value.memory[a] == m.memory[a]
        {
        }
      }
    }
  }

  // ---------------------------------------------------------------------------------------
  // 2NNN and 00EE

  /** A call followed by a return comes back to the instruction after the call, with the
      stack pointer restored; it fails only when the stack is full. */
  lemma CallThenReturn(m: Machine, a: Addr)
    requires WellFormed(m) && m.pc + 1 < MemorySize
    ensures var c := CallEffect(m, a);
      (c.Ok? <==> m.sp < StackSize) &&
      (c.Ok? ==> ReturnEffect(c.value) == Ok(m.(stack := m.stack[m.sp := m.pc], pc := m.pc + 2)))
  {
  }

  /** A return with an empty stack faults. */
  lemma ReturnUnderflow(m: Machine)
    requires WellFormed(m) && m.sp == 0
    ensures ReturnEffect(m) == Err(StackUnderflow)
  {
  }

  // ---------------------------------------------------------------------------------------
  // The conditional skips

  /** 3XNN and 4XNN with the same operands are complementary: exactly one of them skips the
      next instruction, the one whose condition on VX holds, and neither changes anything
      but the program counter. */
  lemma SkipImmComplement(m: Machine, x: Nibble, nn: Byte)
    requires WellFormed(m) && m.pc + 1 < MemorySize
    ensures var eq, ne := ExecuteFlow(m, SkipEqImm(x, nn)), ExecuteFlow(m, SkipNeImm(x, nn));
      eq.Ok? && ne.Ok? && eq.value == m.(pc := eq.value.pc) && ne.value == m.(pc := ne.value.pc) &&
      (eq.value.pc == m.pc + 4 <==> m.v[x] == nn) && (eq.value.pc == m.pc + 4 <==> ne.value.pc == m.pc + 2) &&
      (eq.value.pc == m.pc + 2 || eq.value.pc == m.pc + 4)
  {
  }

  /** 5XY0 and 9XY0 are likewise complementary, whatever their low nibble. */
  lemma SkipRegComplement(m: Machine, x: Nibble, y: Nibble, n: Nibble, n': Nibble)
    requires WellFormed(m) && m.pc + 1 < MemorySize
    ensures var eq, ne := ExecuteFlow(m, SkipEqReg(x, y, n)), ExecuteFlow(m, SkipNeReg(x, y, n'));
      eq.Ok? && ne.Ok? && eq.value == m.(pc := eq.value.pc) && ne.value == m.(pc := ne.value.pc) &&
      (eq.value.pc == m.pc + 4 <==> m.v[x] == m.v[y]) && (eq.value.pc == m.pc + 4 <==> ne.value.pc == m.pc + 2) &&
      (eq.value.pc == m.pc + 2 || eq.value.pc == m.pc + 4)
  {
  }

  /** EX9E and EXA1: both fault exactly when VX names no key, and otherwise exactly one of
      them skips, EX9E when key VX is down. */
  lemma SkipKeyComplement(m: Machine, x: Nibble)
    requires WellFormed(m) && m.pc + 1 < MemorySize
    ensures var dn, up := ExecuteFlow(m, SkipKeyDown(x)), ExecuteFlow(m, SkipKeyUp(x));
      (dn.Ok? <==> m.v[x] < KeyCount) && (up.Ok? <==> m.v[x] < KeyCount) &&
      (dn.Err? ==> dn.fault == KeyOutOfBounds(m.v[x]) && up == dn) &&
      (dn.Ok? ==>
        dn.value == m.(pc := dn.value.pc) && up.value == m.(pc := up.value.pc) &&
        (dn.value.pc == m.pc + 4 <==> m.key[m.v[x]] != 0) && (dn.value.pc == m.pc + 4 <==> up.value.pc == m.pc + 2) &&
        (dn.value.pc == m.pc + 2 || dn.value.pc == m.pc + 4))
  {
  }

  // ---------------------------------------------------------------------------------------
  // A whole cycle

  /** When the program counter points at the encoding of an instruction, a cycle fetches
      that opcode, decodes it back to the instruction, runs its arm and ticks the timers. */
  lemma StepRuns(m: Machine, ins: Instr, rand: Byte)
    requires WellFormed(m) && ValidInstr(ins) && m.pc + 1 < MemorySize
    requires OpcodeAt(m.memory, m.pc) == Encode(ins)
    ensures var e := Execute(m.(opcode := Encode(ins)), ins, rand);
      Step(m, rand) == if e.Ok? then Ok(Tick(e.value)) else Err(e.fault)
  {
    DecodeEncode(ins);
    StepOfDecoded(m, rand);
  }

  /** A cycle that meets a `2NNN` and then, at the target, a `00EE` comes back to the
      instruction after the call, with the stack pointer where it was. */
  lemma CallReturnCycles(m: Machine, a: Addr, rand: Byte, rand': Byte)
    requires WellFormed(m) && m.pc + 1 < MemorySize && a + 1 < MemorySize && m.sp < StackSize
    requires OpcodeAt(m.memory, m.pc) == Encode(Call(a)) && OpcodeAt(m.memory, a) == Encode(Return)
    ensures Step(m, rand).Ok?
    ensures var m1 := Step(m, rand).value;
      m1.pc == a && m1.sp == m.sp + 1 && Step(m1, rand').Ok? &&
      Step(m1, rand').value.pc == m.pc + 2 && Step(m1, rand').value.sp == m.sp
  {
    StepRuns(m, Call(a), rand);
    var m1 := Step(m, rand).value;
    assert m1.memory == m.memory;
    StepRuns(m1, Return, rand');
  }

  // ---------------------------------------------------------------------------------------
  // The timers

  /** The timers after k cycles that do not set them. */
  function Ticks(m: Machine, k: nat): (r: Machine)
    decreases k
  {
    if k == 0 then m else Tick(Ticks(m, k - 1))
  }

  /** Each timer counts down by one per cycle and stops at zero. */
  lemma {:induction false} TicksSaturate(m: Machine, k: nat)
    ensures var r := Ticks(m, k);
      r == m.(delayTimer := r.delayTimer, soundTimer := r.soundTimer) &&
      r.delayTimer == (if m.delayTimer >= k then m.delayTimer - k else 0) &&
      r.soundTimer == (if m.soundTimer >= k then m.soundTimer - k else 0)
    decreases k
  {
    if k > 0 {
      TicksSaturate(m, k - 1);
    }
  }
}
