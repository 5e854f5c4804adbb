/** What the interpreter's reference semantics promises: the decoder and
    canonical opcodes round-trip, one cycle's fetch and timer step, the
    flags of the arithmetic, the XOR draw, call and return, the memory
    block copies, the font, the key wait, and a two-instruction program
    run from a fresh machine. */
module Chip8Properties {
  import opened Bits
  import opened Display
  import opened Chip8Spec

  // ---------------------------------------------------------------------
  // Decoding

  /** The four nibbles of an opcode, and its NN and NNN fields. */
  lemma Fields(op: int, g: nat, x: nat, y: nat, n: nat)
    requires g < 16 && x < 16 && y < 16 && n < 16
    requires op == g * 0x1000 + x * 0x100 + y * 0x10 + n
    ensures op / 0x1000 == g && (op / 0x100) % 0x10 == x && (op / 0x10) % 0x10 == y && op % 0x10 == n
    ensures op % 0x100 == y * 0x10 + n && op % 0x1000 == x * 0x100 + y * 0x10 + n
  {
    DivUnique(op, 0x1000, g, x * 0x100 + y * 0x10 + n);
    DivUnique(op, 0x100, g * 0x10 + x, y * 0x10 + n);
    DivUnique(op, 0x10, g * 0x100 + x * 0x10 + y, n);
    DivUnique(g * 0x10 + x, 0x10, g, x);
    DivUnique(g * 0x100 + x * 0x10 + y, 0x10, g * 0x10 + x, y);
  }

  lemma SplitByte(nn: Byte)
    ensures nn / 0x10 < 16 && nn == (nn / 0x10) * 0x10 + nn % 0x10
  {
  }

  lemma SplitAddr(nnn: Addr)
    ensures nnn / 0x100 < 16 && nnn == (nnn / 0x100) * 0x100 + ((nnn / 0x10) % 0x10) * 0x10 + nnn % 0x10
  {
  }

  /** Opcodes with an address operand (1NNN, 2NNN, ANNN, BNNN). */
  lemma DecodeEncodeAddr(ins: Instr)
    requires ins.Jump? || ins.Call? || ins.LoadIndex? || ins.JumpOffset?
    ensures Decode(Encode(ins)) == ins
  {
    SplitAddr(ins.nnn);
    var g := if ins.Jump? then 1 else if ins.Call? then 2 else if ins.LoadIndex? then 0xA else 0xB;
    Fields(Encode(ins), g, ins.nnn / 0x100, (ins.nnn / 0x10) % 0x10, ins.nnn % 0x10);
  }

  /** Opcodes with a register and a byte operand (3XNN, 4XNN, 6XNN, 7XNN, CXNN). */
  lemma DecodeEncodeImm(ins: Instr)
    requires ins.SkipEqImm? || ins.SkipNeImm? || ins.LoadImm? || ins.AddImm? || ins.Random?
    ensures Decode(Encode(ins)) == ins
  {
    SplitByte(ins.nn);
    var g := if ins.SkipEqImm? then 3 else if ins.SkipNeImm? then 4 else if ins.LoadImm? then 6
             else if ins.AddImm? then 7 else 0xC;
    Fields(Encode(ins), g, ins.x, ins.nn / 0x10, ins.nn % 0x10);
  }

  /** 5XY0 and the register moves and logic of the 8 group. */
  lemma DecodeEncodeLogic(ins: Instr)
    requires ins.SkipEqReg? || ins.Move? || ins.Or? || ins.And? || ins.Xor?
    ensures Decode(Encode(ins)) == ins
  {
    match ins
    case SkipEqReg(x, y) => Fields(Encode(ins), 5, x, y, 0);
    case Move(x, y) => Fields(Encode(ins), 8, x, y, 0);
    case Or(x, y) => Fields(Encode(ins), 8, x, y, 1);
    case And(x, y) => Fields(Encode(ins), 8, x, y, 2);
    case Xor(x, y) => Fields(Encode(ins), 8, x, y, 3);
  }

  /** The arithmetic and shifts of the 8 group. */
  lemma DecodeEncodeArith(ins: Instr)
    requires ins.AddReg? || ins.SubReg? || ins.ShiftRight? || ins.SubReverse? || ins.ShiftLeft?
    ensures Decode(Encode(ins)) == ins
  {
    match ins
    case AddReg(x, y) => Fields(Encode(ins), 8, x, y, 4);
    case SubReg(x, y) => Fields(Encode(ins), 8, x, y, 5);
    case ShiftRight(x) => Fields(Encode(ins), 8, x, 0, 6);
    case SubReverse(x, y) => Fields(Encode(ins), 8, x, y, 7);
    case ShiftLeft(x) => Fields(Encode(ins), 8, x, 0, 0xE);
  }

  /** The E group. */
  lemma DecodeEncodeKey(ins: Instr)
    requires ins.SkipKey? || ins.SkipNoKey?
    ensures Decode(Encode(ins)) == ins
  {
    if ins.SkipKey? {
      Fields(Encode(ins), 0xE, ins.x, 9, 0xE);
    } else {
      Fields(Encode(ins), 0xE, ins.x, 0xA, 1);
    }
  }

  /** The timer instructions of the F group. */
  lemma DecodeEncodeTimers(ins: Instr)
    requires ins.ReadDelay? || ins.SetDelay? || ins.SetSound?
    ensures Decode(Encode(ins)) == ins
  {
    match ins
    case ReadDelay(x) => Fields(Encode(ins), 0xF, x, 0, 7);
    case SetDelay(x) => Fields(Encode(ins), 0xF, x, 1, 5);
    case SetSound(x) => Fields(Encode(ins), 0xF, x, 1, 8);
  }

  /** FX0A and FX1E. */
  lemma DecodeEncodeWaitAndIndex(ins: Instr)
    requires ins.WaitKey? || ins.AddIndex?
    ensures Decode(Encode(ins)) == ins
  {
    if ins.WaitKey? {
      Fields(Encode(ins), 0xF, ins.x, 0, 0xA);
    } else {
      Fields(Encode(ins), 0xF, ins.x, 1, 0xE);
    }
  }

  /** FX29 and FX33. */
  lemma DecodeEncodeFontAndBcd(ins: Instr)
    requires ins.FontGlyph? || ins.StoreBcd?
    ensures Decode(Encode(ins)) == ins
  {
    if ins.FontGlyph? {
      Fields(Encode(ins), 0xF, ins.x, 2, 9);
    } else {
      Fields(Encode(ins), 0xF, ins.x, 3, 3);
    }
  }

  /** FX55 and FX65. */
  lemma DecodeEncodeBlocks(ins: Instr)
    requires ins.StoreRegs? || ins.LoadRegs?
    ensures Decode(Encode(ins)) == ins
  {
    if ins.StoreRegs? {
      Fields(Encode(ins), 0xF, ins.x, 5, 5);
    } else {
      Fields(Encode(ins), 0xF, ins.x, 6, 5);
    }
  }

  /** Every instruction the dispatcher reaches is decoded from its canonical
      opcode, operands included. 9XY0 is the exception: see NineNotDispatched. */
  lemma DecodeEncode(ins: Instr)
    requires !ins.Unassigned? && !ins.SkipNeReg?
    ensures Decode(Encode(ins)) == ins
  {
    if ins.Cls? || ins.Ret? {
    } else if ins.Jump? || ins.Call? || ins.LoadIndex? || ins.JumpOffset? {
      DecodeEncodeAddr(ins);
    } else if ins.SkipEqImm? || ins.SkipNeImm? || ins.LoadImm? || ins.AddImm? || ins.Random? {
      DecodeEncodeImm(ins);
    } else if ins.Draw? {
      Fields(Encode(ins), 0xD, ins.x, ins.y, ins.n);
    } else if ins.SkipEqReg? || ins.Move? || ins.Or? || ins.And? || ins.Xor? {
      DecodeEncodeLogic(ins);
    } else if ins.AddReg? || ins.SubReg? || ins.ShiftRight? || ins.SubReverse? || ins.ShiftLeft? {
      DecodeEncodeArith(ins);
    } else if ins.SkipKey? || ins.SkipNoKey? {
      DecodeEncodeKey(ins);
    } else if ins.ReadDelay? || ins.SetDelay? || ins.SetSound? {
      DecodeEncodeTimers(ins);
    } else if ins.WaitKey? || ins.AddIndex? {
      DecodeEncodeWaitAndIndex(ins);
    } else if ins.FontGlyph? || ins.StoreBcd? {
      DecodeEncodeFontAndBcd(ins);
    } else {
      DecodeEncodeBlocks(ins);
    }
  }

  /** The switch has no case for 9XY0, so its handler never runs and every
      opcode of the 9 group does nothing but advance pc and the timers. */
  lemma NineNotDispatched(op: Word)
    requires op / 0x1000 == 9
    ensures Decode(op) == Unassigned
    ensures forall m: Machine, rand: nat | m.Valid() && m.pc + 1 < MemorySize && Fetch(m) == op ::
              Step(m, rand) == Next(Tick(Advance(m)))
  {
  }

  /** The E group looks at the last nibble only: any EX?E is EX9E and any
      EX?1 is EXA1. */
  lemma KeyGroupLastNibble(op: Word)
    requires op / 0x1000 == 0xE
    ensures op % 0x10 == 0xE ==> Decode(op) == SkipKey((op / 0x100) % 0x10)
    ensures op % 0x10 == 0x1 ==> Decode(op) == SkipNoKey((op / 0x100) % 0x10)
    ensures op % 0x10 != 0xE && op % 0x10 != 0x1 ==> Decode(op) == Unassigned
  {
  }

  /** The opcodes the switch has no case for: group 0 apart from 00E0 and
      00EE, 8XY8 to 8XYD and 8XYF, all of group 9, group E with a last
      nibble other than E and 1, and group F with an unknown NN. */
  lemma DecodeUnassigned(op: Word)
    ensures var g, n, nn := op / 0x1000, op % 0x10, op % 0x100;
            Decode(op) == Unassigned <==>
              (g == 0x0 && op != 0x00E0 && op != 0x00EE) ||
              (g == 0x8 && 0x8 <= n <= 0xD) || (g == 0x8 && n == 0xF) ||
              g == 0x9 ||
              (g == 0xE && n != 0xE && n != 0x1) ||
              (g == 0xF && nn != 0x07 && nn != 0x0A && nn != 0x15 && nn != 0x18 && nn != 0x1E &&
               nn != 0x29 && nn != 0x33 && nn != 0x55 && nn != 0x65)
  {
  }

  /** op with the nibbles the switch ignores set as in the canonical opcode:
      the last nibble of 5XY?, Y of 8XY6 and 8XYE, and the third nibble of
      EX?E and EX?1. */
  function Canonical(op: Word): Word
  {
    var g, x, y, n := op / 0x1000, (op / 0x100) % 0x10, (op / 0x10) % 0x10, op % 0x10;
    if g == 0x5 then op - n
    else if g == 0x8 && (n == 0x6 || n == 0xE) then op - y * 0x10
    else if g == 0xE && n == 0xE then 0xE09E + x * 0x100
    else if g == 0xE && n == 0x1 then 0xE0A1 + x * 0x100
    else op
  }

  /** An opcode is its four nibbles. */
  lemma Nibbles(op: Word)
    ensures var g, x, y, n := op / 0x1000, (op / 0x100) % 0x10, (op / 0x10) % 0x10, op % 0x10;
            g < 16 && op == g * 0x1000 + x * 0x100 + y * 0x10 + n &&
            op % 0x100 == y * 0x10 + n && op % 0x1000 == x * 0x100 + y * 0x10 + n
  {
    var a, n := op / 0x10, op % 0x10;
    var b, y := a / 0x10, a % 0x10;
    var g, x := b / 0x10, b % 0x10;
    assert op == g * 0x1000 + x * 0x100 + y * 0x10 + n;
    Fields(op, g, x, y, n);
  }

  /** Encoding what an opcode decodes to gives the opcode back, up to the
      nibbles the switch ignores. */
  lemma EncodeDecode(op: Word)
    requires !Decode(op).Unassigned?
    ensures Encode(Decode(op)) == Canonical(op)
  {
    var g := op / 0x1000;
    if g == 0x8 {
      EncodeDecodeEight(op);
    } else if g == 0xE || g == 0xF {
      EncodeDecodeKeyAndMisc(op);
    } else {
      EncodeDecodeFields(op);
    }
  }

  /** Groups 0 to 7 and 9 to D. */
  lemma EncodeDecodeFields(op: Word)
    requires !Decode(op).Unassigned? && op / 0x1000 != 0x8 && op / 0x1000 < 0xE
    ensures Encode(Decode(op)) == Canonical(op)
  {
    Nibbles(op);
  }

  /** Group 8. */
  lemma EncodeDecodeEight(op: Word)
    requires !Decode(op).Unassigned? && op / 0x1000 == 0x8
    ensures Encode(Decode(op)) == Canonical(op)
  {
    Nibbles(op);
    var x, y, n := (op / 0x100) % 0x10, (op / 0x10) % 0x10, op % 0x10;
    assert op == 0x8000 + x * 0x100 + y * 0x10 + n;
  }

  /** Groups E and F. */
  lemma EncodeDecodeKeyAndMisc(op: Word)
    requires !Decode(op).Unassigned? && op / 0x1000 >= 0xE
    ensures Encode(Decode(op)) == Canonical(op)
  {
    Nibbles(op);
    var g, x, nn := op / 0x1000, (op / 0x100) % 0x10, op % 0x100;
    assert op == g * 0x1000 + x * 0x100 + nn;
  }

  // ---------------------------------------------------------------------
  // The cycle

  /** An opcode the switch does not recognise changes nothing but pc, which
      moves past it, and the timers. */
  lemma UnassignedOnlyAdvances(m: Machine, rand: nat)
    requires m.Valid() && m.pc + 1 < MemorySize && Decode(Fetch(m)) == Unassigned
    ensures Step(m, rand) == Next(Tick(Advance(m)))
  {
  }

  /** An instruction that is not a jump, call, return or skip leaves pc two
      bytes past the opcode, wrapping at 16 bits. */
  lemma StepAdvancesPc(m: Machine, rand: nat)
    requires m.Valid() && m.pc + 1 < MemorySize && !IsControl(Decode(Fetch(m)))
    ensures Step(m, rand).Next? ==> Step(m, rand).next.pc == (m.pc + 2) % 0x1_0000
  {
  }

  /** Unless the instruction writes a timer, each timer is one less after a
      cycle, and stays at 0 once there. */
  lemma StepCountsDown(m: Machine, rand: nat)
    requires m.Valid() && Step(m, rand).Next?
    ensures var r := Step(m, rand).next; var ins := Decode(Fetch(m));
            (!ins.SetDelay? ==> r.delayTimer == if m.delayTimer == 0 then 0 else m.delayTimer - 1) &&
            (!ins.SetSound? ==> r.soundTimer == if m.soundTimer == 0 then 0 else m.soundTimer - 1)
  {
    var ins := Decode(Fetch(m));
    var a := Advance(m);
    var r := Apply(a, ins, rand);
    if IsControl(ins) || IsArith(ins) || ins.Draw? {
      assert r.delayTimer == a.delayTimer && r.soundTimer == a.soundTimer;
    } else {
      assert !ins.SetDelay? ==> r.delayTimer == a.delayTimer;
      assert !ins.SetSound? ==> r.soundTimer == a.soundTimer;
    }
  }

  /** Cycles run with the given rand() values, each of which completes. */
  predicate Completes(m: Machine, rands: seq<nat>)
    requires m.Valid()
    decreases |rands|
  {
    |rands| == 0 ||
    (m.pc + 1 < MemorySize && Step(m, rands[0]).Next? &&
     Completes(Step(m, rands[0]).next, rands[1..]))
  }

  /** The machine after those cycles. */
  function Run(m: Machine, rands: seq<nat>): (r: Machine)
    requires m.Valid() && Completes(m, rands)
    ensures r.Valid() && r.keys == m.keys
    decreases |rands|
  {
    if |rands| == 0 then m else Run(Step(m, rands[0]).next, rands[1..])
  }

  /** None of those cycles is FX15 or FX18. */
  predicate TimersUntouched(m: Machine, rands: seq<nat>)
    requires m.Valid() && Completes(m, rands)
    decreases |rands|
  {
    |rands| == 0 ||
    (!Decode(Fetch(m)).SetDelay? && !Decode(Fetch(m)).SetSound? &&
     TimersUntouched(Step(m, rands[0]).next, rands[1..]))
  }

  /** k cycles that do not set a timer take k off each timer, saturating at
      0: a delay timer of 5 reads 0 after five cycles and after a sixth. */
  lemma {:induction false} RunCountsDown(m: Machine, rands: seq<nat>)
    requires m.Valid() && Completes(m, rands) && TimersUntouched(m, rands)
    ensures var r, k := Run(m, rands), |rands|;
            r.delayTimer == (if m.delayTimer >= k then m.delayTimer - k else 0) &&
            r.soundTimer == (if m.soundTimer >= k then m.soundTimer - k else 0)
    decreases |rands|
  {
    if |rands| > 0 {
      StepCountsDown(m, rands[0]);
      RunCountsDown(Step(m, rands[0]).next, rands[1..]);
    }
  }

  // ---------------------------------------------------------------------
  // Arithmetic and logic

  /** 8XY4: VF is the carry and VX the low byte of the sum; no other
      register changes. */
  lemma AddRegSum(m: Machine, x: Nibble, y: Nibble, rand: nat)
    requires m.Valid() && x != Flag && y != Flag
    ensures var r := Apply(m, AddReg(x, y), rand);
            r.registers[x] as int + 0x100 * (r.registers[Flag] as int) == m.registers[x] as int + m.registers[y] &&
            r.registers[Flag] <= 1 &&
            forall i :: 0 <= i < RegisterCount && i != x && i != Flag ==> r.registers[i] == m.registers[i]
  {
  }

  /** 8XY5 and 8XY7: VX is the difference modulo 256 and VF is 1 exactly when
      the minuend is strictly greater, so equal operands give VF = 0. */
  lemma SubtractFlags(m: Machine, x: Nibble, y: Nibble, rand: nat)
    requires m.Valid() && x != Flag && y != Flag
    ensures var a, b := m.registers[x] as int, m.registers[y] as int;
            var r := Apply(m, SubReg(x, y), rand);
            r.registers[x] == (if a >= b then a - b else a - b + 0x100) &&
            (r.registers[Flag] == 1 <==> a > b) && (r.registers[Flag] == 0 <==> a <= b)
    ensures var a, b := m.registers[x] as int, m.registers[y] as int;
            var r := Apply(m, SubReverse(x, y), rand);
            r.registers[x] == (if b >= a then b - a else b - a + 0x100) &&
            (r.registers[Flag] == 1 <==> b > a) && (r.registers[Flag] == 0 <==> b <= a)
  {
  }

  /** 8XY6 and 8XYE: VF is the bit shifted out. */
  lemma ShiftFlags(m: Machine, x: Nibble, rand: nat)
    requires m.Valid() && x != Flag
    ensures var r := Apply(m, ShiftRight(x), rand);
            2 * (r.registers[x] as int) + r.registers[Flag] == m.registers[x] && r.registers[Flag] == Bit(m.registers[x], 0)
    ensures var r := Apply(m, ShiftLeft(x), rand);
            r.registers[x] as int + 0x100 * (r.registers[Flag] as int) == 2 * (m.registers[x] as int) &&
            r.registers[Flag] == Bit(m.registers[x], 7)
  {
    assert Pow2(7) == 0x80;
  }

  /** With X = F the carry is written first and is then the left operand:
      VF ends up as carry + VY modulo 256, neither the carry nor the sum. */
  lemma AddRegIntoFlag(m: Machine, y: Nibble, rand: nat)
    requires m.Valid() && y != Flag
    ensures var carry := if m.registers[Flag] as int + m.registers[y] > 255 then 1 else 0;
            Apply(m, AddReg(Flag, y), rand).registers[Flag] == (carry + m.registers[y] as int) % 0x100
  {
  }

  /** 8XY4 with Y = F: the carry of VX + VF is written to VF first, so VX
      then receives VX + carry rather than VX + VF. */
  lemma AddFlagOperand(m: Machine, x: Nibble, rand: nat)
    requires m.Valid() && x != Flag
    ensures var a, c := m.registers[x] as int, if m.registers[x] as int + m.registers[Flag] > 255 then 1 else 0;
            var r := Apply(m, AddReg(x, Flag), rand);
            r.registers[Flag] == c && r.registers[x] == (a + c) % 0x100
  {
  }

  /** 8XY5 and 8XY7 with Y = F: the comparison is made against the old VF,
      but the difference is taken against the flag just written. */
  lemma SubtractFlagOperand(m: Machine, x: Nibble, rand: nat)
    requires m.Valid() && x != Flag
    ensures var a, f := m.registers[x] as int, m.registers[Flag] as int;
            var r := Apply(m, SubReg(x, Flag), rand);
            r.registers[Flag] == (if a > f then 1 else 0) &&
            r.registers[x] == (a - r.registers[Flag] as int) % 0x100
    ensures var a, f := m.registers[x] as int, m.registers[Flag] as int;
            var r := Apply(m, SubReverse(x, Flag), rand);
            r.registers[Flag] == (if f > a then 1 else 0) &&
            r.registers[x] == (r.registers[Flag] as int - a) % 0x100
  {
  }

  /** 8FY5 and 8FY7: the result overwrites the flag, which is first set by
      the comparison and then used as the operand VF. */
  lemma SubtractIntoFlag(m: Machine, y: Nibble, rand: nat)
    requires m.Valid() && y != Flag
    ensures var f, b := m.registers[Flag] as int, m.registers[y] as int;
            Apply(m, SubReg(Flag, y), rand).registers[Flag] == ((if f > b then 1 else 0) - b) % 0x100
    ensures var f, b := m.registers[Flag] as int, m.registers[y] as int;
            Apply(m, SubReverse(Flag, y), rand).registers[Flag] == (b - (if b > f then 1 else 0)) % 0x100
  {
  }

  /** 8FY6 and 8FYE: the shift applies to the bit just stored, so 8FY6 always
      leaves VF = 0 and 8FYE leaves twice the old top bit. */
  lemma ShiftFlagRegister(m: Machine, rand: nat)
    requires m.Valid()
    ensures Apply(m, ShiftRight(Flag), rand).registers[Flag] == 0
    ensures Apply(m, ShiftLeft(Flag), rand).registers[Flag] == 2 * (m.registers[Flag] / 0x80)
  {
  }

  /** The boundary cases of the carry: 255 + 1. */
  lemma CarryExample(m: Machine)
    requires m.Valid() && m.registers[0] == 255 && m.registers[1] == 1
    ensures var r := Apply(m, AddReg(0, 1), 0);
            r.registers[0] == 0 && r.registers[Flag] == 1
  {
  }

  /** The boundary cases of the borrow: 5 - 5, 5 - 10 and, reversed, 10 - 5. */
  lemma BorrowExamples(m: Machine)
    requires m.Valid() && m.registers[0] == 5
    ensures m.registers[1] == 5 ==>
              var r := Apply(m, SubReg(0, 1), 0); r.registers[0] == 0 && r.registers[Flag] == 0
    ensures m.registers[1] == 10 ==>
              var r := Apply(m, SubReg(0, 1), 0); r.registers[0] == 251 && r.registers[Flag] == 0
    ensures m.registers[1] == 10 ==>
              var r := Apply(m, SubReverse(0, 1), 0); r.registers[0] == 5 && r.registers[Flag] == 1
  {
  }

  /** A register instruction has exactly the effect ApplyArith gives it. */
  lemma ArithApply(m: Machine, ins: Instr, rand: nat)
    requires m.Valid() && IsArith(ins)
    ensures Apply(m, ins, rand) == ApplyArith(m, ins)
  {
  }

  /** The C operator behind 8XY1, 8XY2 and 8XY3. */
  function LogicOp(ins: Instr): BitOp
    requires ins.Or? || ins.And? || ins.Xor?
  {
    if ins.Or? then OrOp else if ins.And? then AndOp else XorOp
  }

  /** 8XY1, 8XY2 and 8XY3 work bit by bit, as C's |, & and ^ do: each bit of
      the new VX is the operator applied to that bit of VX and of VY. */
  lemma LogicBitwise(m: Machine, x: Nibble, y: Nibble, ins: Instr, i: nat, rand: nat)
    requires m.Valid() && (ins == Or(x, y) || ins == And(x, y) || ins == Xor(x, y)) && i < 8
    ensures var a, b := m.registers[x], m.registers[y];
            Bit(Apply(m, ins, rand).registers[x], i) == BitTable(LogicOp(ins), Bit(a, i), Bit(b, i))
  {
    ArithApply(m, ins, rand);
    var v, a, b := ApplyArith(m, ins).registers[x], m.registers[x], m.registers[y];
    if ins.Or? {
      assert v == BitOr(a, b);
    } else if ins.And? {
      assert v == BitAnd(a, b);
    } else {
      assert v == BitXor(a, b);
    }
  }

  /** CXNN: the random byte is rand() % 255, so VX never exceeds 254 nor NN. */
  lemma RandomMasked(m: Machine, x: Nibble, nn: Byte, rand: nat)
    requires m.Valid()
    ensures var v := Apply(m, Random(x, nn), rand).registers[x];
            v <= nn && v <= 254
  {
    assert Apply(m, Random(x, nn), rand).registers[x] == BitAnd(rand % 255, nn);
  }

  // ---------------------------------------------------------------------
  // Screen

  /** Only 00E0 and DXYN change the screen. */
  lemma ScreenOnlyByDrawing(m: Machine, ins: Instr, rand: nat)
    requires m.Valid() && Check(m, ins).None? && CanRun(m, ins) && !ins.Cls? && !ins.Draw?
    ensures Apply(m, ins, rand).screen == m.screen
  {
    if IsControl(ins) {
      assert ApplyControl(m, ins).screen == m.screen;
    } else if IsArith(ins) {
      assert ApplyArith(m, ins).screen == m.screen;
    } else if IsMisc(ins) {
      assert ApplyMisc(m, ins).screen == m.screen;
    }
  }

  /** 00E0 turns every pixel off. */
  lemma ClearBlanks(m: Machine, rand: nat)
    requires m.Valid()
    ensures forall k :: 0 <= k < ScreenSize ==> !Apply(m, Cls, rand).screen[k]
  {
  }

  /** DXYN twice with the same operands restores the screen. Starting from a
      blank screen, the first draw reports no collision and the second one
      does as soon as the sprite has a lit pixel. */
  lemma DrawTwice(m: Machine, x: Nibble, y: Nibble, n: Nibble)
    requires m.Valid() && x != Flag && y != Flag && Check(m, Draw(x, y, n)).None?
    ensures var m1 := Apply(m, Draw(x, y, n), 0);
            Check(m1, Draw(x, y, n)).None? && Apply(m1, Draw(x, y, n), 0).screen == m.screen
    ensures var m1 := Apply(m, Draw(x, y, n), 0);
            var sprite := Sprite(m.memory, m.index, n);
            m.screen == Blank() ==>
              m1.registers[Flag] == 0 &&
              forall row, col | 0 <= row < |sprite| && 0 <= col < 8 && SpriteBit(sprite[row], col) ::
                Apply(m1, Draw(x, y, n), 0).registers[Flag] == 1
  {
    var m1 := Apply(m, Draw(x, y, n), 0);
    var px, py := m.registers[x] % VideoWidth, m.registers[y] % VideoHeight;
    var sprite := Sprite(m.memory, m.index, n);
    assert m1.registers[x] == m.registers[x] && m1.registers[y] == m.registers[y];
    assert Check(m1, Draw(x, y, n)) == Check(m, Draw(x, y, n));
    DrawTwiceRestores(m.screen, sprite, px, py);
    if m.screen == Blank() {
      forall row, col | 0 <= row < |sprite| && 0 <= col < 8 && SpriteBit(sprite[row], col)
        ensures Apply(m1, Draw(x, y, n), 0).registers[Flag] == 1
      {
        RedrawCollides(sprite, px, py, row, col);
      }
      assert !Collides(m.screen, sprite, px, py);
    }
  }

  /** DXYN sets VF to 1 exactly when it turns off a pixel that was on. */
  lemma DrawFlagMeansErased(m: Machine, x: Nibble, y: Nibble, n: Nibble, rand: nat)
    requires m.Valid() && Check(m, Draw(x, y, n)).None?
    ensures var r := Apply(m, Draw(x, y, n), rand);
            r.registers[Flag] == 1 <==> exists k | 0 <= k < ScreenSize :: m.screen[k] && !r.screen[k]
  {
    var px, py := m.registers[x] % VideoWidth, m.registers[y] % VideoHeight;
    var sprite := Sprite(m.memory, m.index, n);
    assert Apply(m, Draw(x, y, n), rand) == ApplyDraw(m, x, y, n);
    assert Collides(m.screen, sprite, px, py) <==>
           exists k | 0 <= k < |m.screen| :: m.screen[k] && !DrawSprite(m.screen, sprite, px, py)[k];
  }

  // ---------------------------------------------------------------------
  // Subroutines

  /** 2NNN then 00EE returns to the pc of the call with the stack depth
      restored; only the stack slot used keeps the return address. */
  lemma CallThenReturn(m: Machine, nnn: Addr, rand: nat)
    requires m.Valid() && m.sp < StackDepth
    ensures var c := Apply(m, Call(nnn), rand);
            c.pc == nnn && c.sp == m.sp + 1 && Check(c, Ret).None? &&
            Apply(c, Ret, rand) == m.(stack := m.stack[m.sp := m.pc])
  {
  }

  /** 2NNN run for each address in turn, the last one innermost. */
  function Calls(m: Machine, addrs: seq<Addr>): (r: Machine)
    requires m.Valid() && m.sp + |addrs| <= StackDepth
    ensures r.Valid() && r.sp == m.sp + |addrs|
    decreases |addrs|
  {
    if |addrs| == 0 then m
    else Apply(Calls(m, addrs[..|addrs| - 1]), Call(addrs[|addrs| - 1]), 0)
  }

  /** 00EE run k times. */
  function Rets(m: Machine, k: nat): (r: Machine)
    requires m.Valid() && k <= m.sp
    ensures r.Valid() && r.sp == m.sp - k && r.stack == m.stack
    decreases k
  {
    if k == 0 then m else Rets(Apply(m, Ret, 0), k - 1)
  }

  /** Nested calls stack the pc of the first call and then each address but
      the last, above the slots already in use, and jump to the last one. */
  lemma {:induction false} CallsPush(m: Machine, addrs: seq<Addr>)
    requires m.Valid() && m.sp + |addrs| <= StackDepth
    ensures var r := Calls(m, addrs);
            r == m.(stack := r.stack, sp := r.sp, pc := r.pc) &&
            (|addrs| > 0 ==> r.pc == addrs[|addrs| - 1]) &&
            (forall i :: 0 <= i < m.sp ==> r.stack[i] == m.stack[i]) &&
            (forall j :: m.sp <= j < m.sp + |addrs| ==> r.stack[j] == if j == m.sp then m.pc else addrs[j - m.sp - 1])
    decreases |addrs|
  {
    if |addrs| > 0 {
      var init := addrs[..|addrs| - 1];
      CallsPush(m, init);
      var c := Calls(m, init);
      assert c.pc == if |init| == 0 then m.pc else addrs[|addrs| - 2];
    }
  }

  /** k returns pop k slots and resume at the address k slots down. */
  lemma {:induction false} RetsPop(m: Machine, k: nat)
    requires m.Valid() && k <= m.sp
    ensures var r := Rets(m, k);
            r == m.(sp := r.sp, pc := r.pc) && (k > 0 ==> r.pc == m.stack[m.sp - k])
    decreases k
  {
    if k > 0 {
      RetsPop(Apply(m, Ret, 0), k - 1);
    }
  }

  /** Any number of nested calls followed by as many returns resumes at the
      pc of the first call with the stack depth restored; the slots below
      the first call's are untouched and nothing but the stack changed. */
  lemma NestedCallsReturn(m: Machine, addrs: seq<Addr>)
    requires m.Valid() && m.sp + |addrs| <= StackDepth
    ensures var r := Rets(Calls(m, addrs), |addrs|);
            r.pc == m.pc && r.sp == m.sp && r == m.(stack := r.stack) &&
            r.stack[..m.sp] == m.stack[..m.sp]
  {
    var c := Calls(m, addrs);
    CallsPush(m, addrs);
    RetsPop(c, |addrs|);
    var r := Rets(c, |addrs|);
    assert r.pc == m.pc by {
      if |addrs| > 0 {
        assert c.stack[c.sp - |addrs|] == m.pc;
      }
    }
    assert r == m.(stack := c.stack);
    assert r.stack[..m.sp] == m.stack[..m.sp];
  }

  /** A cycle that runs 2NNN pushes the address of the next instruction. */
  lemma StepCall(m: Machine, rand: nat)
    requires m.Valid() && m.pc + 1 < MemorySize && Decode(Fetch(m)).Call? && m.sp < StackDepth
    ensures Step(m, rand).Next?
    ensures var r := Step(m, rand).next;
            r.pc == Decode(Fetch(m)).nnn && r.sp == m.sp + 1 && r.stack[m.sp] == (m.pc + 2) % 0x1_0000
  {
  }

  /** 2NNN with all sixteen slots in use and 00EE with none are faults. */
  lemma StackLimits(m: Machine, nnn: Addr, rand: nat)
    requires m.Valid()
    ensures m.sp == StackDepth <==> Execute(m, Call(nnn), rand) == Faulted(StackOverflow)
    ensures m.sp == 0 <==> Execute(m, Ret, rand) == Faulted(StackUnderflow)
  {
  }

  // ---------------------------------------------------------------------
  // Memory, the index register and the font

  /** Only FX33 and FX55 write memory. */
  lemma MemoryOnlyByStores(m: Machine, ins: Instr, rand: nat)
    requires m.Valid() && Check(m, ins).None? && CanRun(m, ins) && !ins.StoreBcd? && !ins.StoreRegs?
    ensures Apply(m, ins, rand).memory == m.memory
  {
    if IsControl(ins) {
      assert ApplyControl(m, ins).memory == m.memory;
    } else if IsArith(ins) {
      assert ApplyArith(m, ins).memory == m.memory;
    } else if IsMisc(ins) {
      assert ApplyMisc(m, ins).memory == m.memory;
    }
  }

  /** FX33 writes the hundreds, tens and ones of VX at I, I+1 and I+2. */
  lemma StoreBcdDigits(m: Machine, x: Nibble, rand: nat)
    requires m.Valid() && m.index + 2 < MemorySize
    ensures var r := Apply(m, StoreBcd(x), rand); var i := m.index;
            r.memory[i] < 10 && r.memory[i + 1] < 10 && r.memory[i + 2] < 10 &&
            100 * (r.memory[i] as int) + 10 * (r.memory[i + 1] as int) + r.memory[i + 2] as int == m.registers[x] &&
            forall a :: 0 <= a < MemorySize && !(i <= a <= i + 2) ==> r.memory[a] == m.memory[a]
  {
  }

  lemma BcdExample()
    ensures Digits(157) == [1, 5, 7] && Digits(0) == [0, 0, 0] && Digits(255) == [2, 5, 5]
  {
  }

  /** Copying a block out and then back in leaves the source as it was. */
  lemma {:induction false} CopyOutAndBack<T>(s: seq<T>, at: nat, r: seq<T>, n: nat)
    requires at + n <= |s| && n <= |r|
    ensures var r' := Overwrite(r, 0, s[at..at + n]);
            Overwrite(s, at, r'[..n]) == s
  {
    var r' := Overwrite(r, 0, s[at..at + n]);
    assert r'[..n] == s[at..at + n];
    assert s == s[..at] + s[at..at + n] + s[at + n..];
  }

  /** What FX55 does, as one update of the machine. */
  lemma StoreRegsEffect(m: Machine, x: Nibble, rand: nat)
    requires m.Valid() && m.index + x < MemorySize
    ensures Check(m, StoreRegs(x)).None?
    ensures Apply(m, StoreRegs(x), rand) == m.(memory := Overwrite(m.memory, m.index, m.registers[..x + 1]))
  {
  }

  /** What FX65 does, as one update of the machine. */
  lemma LoadRegsEffect(m: Machine, x: Nibble, rand: nat)
    requires m.Valid() && m.index + x < MemorySize
    ensures Check(m, LoadRegs(x)).None?
    ensures Apply(m, LoadRegs(x), rand) == m.(registers := Overwrite(m.registers, 0, m.memory[m.index..m.index + x + 1]))
  {
  }

  /** FX55 then FX65 with the same X and I reloads the registers unchanged. */
  lemma StoreThenLoad(m: Machine, x: Nibble, rand: nat)
    requires m.Valid() && m.index + x < MemorySize
    ensures var s := Apply(m, StoreRegs(x), rand);
            Check(s, LoadRegs(x)).None? && Apply(s, LoadRegs(x), rand) == s
  {
    StoreRegsEffect(m, x, rand);
    var s := m.(memory := Overwrite(m.memory, m.index, m.registers[..x + 1]));
    LoadRegsEffect(s, x, rand);
    CopyOutAndBack(m.registers, 0, m.memory, x + 1);
    assert s.memory[m.index..m.index + x + 1] == m.registers[0..x + 1];
  }

  /** FX65 then FX55 with the same X and I leaves memory as it was. */
  lemma LoadThenStore(m: Machine, x: Nibble, rand: nat)
    requires m.Valid() && m.index + x < MemorySize
    ensures var l := Apply(m, LoadRegs(x), rand);
            Check(l, StoreRegs(x)).None? && Apply(l, StoreRegs(x), rand).memory == m.memory
  {
    LoadRegsEffect(m, x, rand);
    var l := m.(registers := Overwrite(m.registers, 0, m.memory[m.index..m.index + x + 1]));
    StoreRegsEffect(l, x, rand);
    CopyOutAndBack(m.memory, m.index, m.registers, x + 1);
  }

  /** FX1E adds VX to I modulo 2^16. */
  lemma AddIndexWraps(m: Machine, x: Nibble, rand: nat)
    requires m.Valid()
    ensures var r := Apply(m, AddIndex(x), rand);
            r.index == (m.index + m.registers[x]) % 0x1_0000 &&
            (m.index + m.registers[x] < 0x1_0000 ==> r.index == m.index + m.registers[x])
  {
  }

  /** The font as the constructor lays it out. */
  predicate FontLoaded(memory: seq<Byte>)
  {
    |memory| == MemorySize && forall i :: 0 <= i < FontSize ==> memory[FontStart + i] == Fontset[i]
  }

  /** FX29 with VX a hex digit points I at that digit's five-row glyph; a
      larger VX, which is not reduced to its low nibble, points past the
      font. */
  lemma FontGlyphAddress(m: Machine, x: Nibble, rand: nat)
    requires m.Valid() && FontLoaded(m.memory)
    ensures var r := Apply(m, FontGlyph(x), rand); var v := m.registers[x] as int;
            r.index == FontStart + 5 * v &&
            (v < 16 ==> r.memory[r.index..r.index + 5] == Fontset[5 * v..5 * v + 5]) &&
            (v >= 16 ==> r.index >= FontStart + FontSize)
  {
    var r := Apply(m, FontGlyph(x), rand);
    var v := m.registers[x] as int;
    if v < 16 {
      forall j | r.index <= j < r.index + 5
        ensures r.memory[j] == Fontset[j - FontStart]
      {
        assert 0 <= j - FontStart < FontSize;
      }
    }
  }

  // ---------------------------------------------------------------------
  // Keys

  /** FX0A with a key down writes the value stored for the lowest such key,
      which is its pressed flag and not its number: with keys held as 0 or 1
      VX becomes 1. With no key down the cycle makes no progress. */
  lemma WaitKeyStoresFlag(m: Machine, x: Nibble, rand: nat)
    requires m.Valid()
    ensures FirstPressed(m.keys).None? <==> Execute(m, WaitKey(x), rand) == Stalled
    ensures FirstPressed(m.keys).Some? ==>
              var r := Apply(m, WaitKey(x), rand); var k := FirstPressed(m.keys).value;
              r.registers[x] == m.keys[k] && r.registers[x] != 0 &&
              forall j :: 0 <= j < k ==> m.keys[j] == 0
    ensures FirstPressed(m.keys).Some? && (forall j :: 0 <= j < KeyCount ==> m.keys[j] <= 1) ==>
              Apply(m, WaitKey(x), rand).registers[x] == 1
  {
  }

  /** EX9E and EXA1 skip on opposite conditions; a key number past 15 is a
      fault. */
  lemma KeySkips(m: Machine, x: Nibble, rand: nat)
    requires m.Valid()
    ensures m.registers[x] >= KeyCount <==> Execute(m, SkipKey(x), rand) == Faulted(KeyOutOfRange)
    ensures m.registers[x] >= KeyCount <==> Execute(m, SkipNoKey(x), rand) == Faulted(KeyOutOfRange)
    ensures m.registers[x] < KeyCount ==>
              var down := m.keys[m.registers[x]] != 0;
              Apply(m, SkipKey(x), rand).pc == (if down then (m.pc + 2) % 0x1_0000 else m.pc) &&
              Apply(m, SkipNoKey(x), rand).pc == (if down then m.pc else (m.pc + 2) % 0x1_0000)
  {
  }

  // ---------------------------------------------------------------------
  // Start-up and a whole program

  /** A ROM lands at 0x200 and nothing else in memory moves; on a fresh
      machine the font survives any ROM that fits. */
  lemma LoadPlacesRom(m: Machine, rom: seq<Byte>)
    requires m.Valid() && |rom| <= MaxRomSize
    ensures var r := Load(m, rom);
            r.memory[ProgramStart..ProgramStart + |rom|] == rom &&
            r.memory[..ProgramStart] == m.memory[..ProgramStart] &&
            r.memory[ProgramStart + |rom|..] == m.memory[ProgramStart + |rom|..] &&
            r.(memory := m.memory) == m
    ensures FontLoaded(Load(Initial(), rom).memory)
  {
    var r := Load(m, rom);
    assert r.memory[ProgramStart..ProgramStart + |rom|] == rom;
    var f := Load(Initial(), rom).memory;
    forall i | 0 <= i < FontSize
      ensures f[FontStart + i] == Fontset[i]
    {
      assert FontStart + i < ProgramStart;
    }
  }

  /** A cycle on a register instruction. */
  lemma StepArith(m: Machine, rand: nat)
    requires m.Valid() && m.pc + 1 < MemorySize && IsArith(Decode(Fetch(m)))
    ensures Step(m, rand) == Next(Tick(ApplyArith(Advance(m), Decode(Fetch(m)))))
  {
  }

  /** The program 6005 7003. */
  const AddProgram: seq<Byte> := [0x60, 0x05, 0x70, 0x03]

  /** Its first cycle: V0 = 5 and pc at the second opcode. */
  lemma AddProgramFirstCycle(m0: Machine, rand: nat)
    requires m0.Valid() && m0.pc == ProgramStart
    ensures var m := Load(m0, AddProgram);
            Step(m, rand).Next? &&
            var m1 := Step(m, rand).next;
            m1.pc == 0x202 && m1.registers == m0.registers[0 := 5] && m1.memory == m.memory
  {
    var m := Load(m0, AddProgram);
    assert Fetch(m) == 0x6005 by {
      assert m.memory[0x200] == 0x60 && m.memory[0x201] == 0x05;
    }
    Fields(0x6005, 6, 0, 0, 5);
    StepArith(m, rand);
  }

  /** 6005 then 7003 loaded at 0x200 and run from there: V0 = 8 whatever it
      held, pc two opcodes further, and no other register changed. */
  lemma LoadAddProgram(m0: Machine, rand1: nat, rand2: nat)
    requires m0.Valid() && m0.pc == ProgramStart
    ensures var m := Load(m0, AddProgram);
            Step(m, rand1).Next? &&
            Step(Step(m, rand1).next, rand2).Next? &&
            var r := Step(Step(m, rand1).next, rand2).next;
            r.registers == m0.registers[0 := 8] && r.pc == 0x204
  {
    var m := Load(m0, AddProgram);
    AddProgramFirstCycle(m0, rand1);
    var m1 := Step(m, rand1).next;
    assert Fetch(m1) == 0x7003 by {
      assert m1.memory[0x202] == 0x70 && m1.memory[0x203] == 0x03;
    }
    Fields(0x7003, 7, 0, 0, 3);
    StepArith(m1, rand2);
  }
}
