/** Reference semantics of the CHIP-8 interpreter as functions on a machine
    value: the state layout, the 80-byte font, the opcode decoder, the effect
    of each instruction, the timer step and one whole fetch-decode-execute
    cycle. The imperative Chip8 class is proved against these functions.

    Where the interpreter performs no bounds check and would read or write
    outside one of its fixed-size arrays, the model reports a Fault instead
    and leaves the machine unchanged. */
module Chip8Spec {
  import opened Bits
  import opened Display

  const MemorySize := 4096
  const RegisterCount := 16
  const StackDepth := 16
  const KeyCount := 16
  /** VF, the flag register */
  const Flag := 0xF
  const FontStart := 0x50
  const FontSize := 80
  const ProgramStart := 0x200
  const MaxRomSize := MemorySize - ProgramStart

  /** Glyphs of the hexadecimal digits 0 to F, five rows of one byte each. */
  const Fontset: seq<Byte> := [
    0xF0, 0x90, 0x90, 0x90, 0xF0, // 0
    0x20, 0x60, 0x20, 0x20, 0x70, // 1
    0xF0, 0x10, 0xF0, 0x80, 0xF0, // 2
    0xF0, 0x10, 0xF0, 0x10, 0xF0, // 3
    0x90, 0x90, 0xF0, 0x10, 0x10, // 4
    0xF0, 0x80, 0xF0, 0x10, 0xF0, // 5
    0xF0, 0x80, 0xF0, 0x90, 0xF0, // 6
    0xF0, 0x10, 0x20, 0x40, 0x40, // 7
    0xF0, 0x90, 0xF0, 0x90, 0xF0, // 8
    0xF0, 0x90, 0xF0, 0x10, 0xF0, // 9
    0xF0, 0x90, 0xF0, 0x90, 0x90, // A
    0xE0, 0x90, 0xE0, 0x90, 0xE0, // B
    0xF0, 0x80, 0x80, 0x80, 0xF0, // C
    0xE0, 0x90, 0x90, 0x90, 0xE0, // D
    0xF0, 0x80, 0xF0, 0x80, 0xF0, // E
    0xF0, 0x80, 0xF0, 0x80, 0x80  // F
  ]

  datatype Option<T> = None | Some(value: T)

  /** The interpreter state. `keys` is written only by the host. */
  datatype Machine = Machine(
    memory: seq<Byte>,
    registers: seq<Byte>,
    index: Word,
    pc: Word,
    stack: seq<Word>,
    sp: Byte,
    delayTimer: Byte,
    soundTimer: Byte,
    screen: seq<bool>,
    keys: seq<Byte>)
  {
    predicate Valid()
    {
      |memory| == MemorySize && |registers| == RegisterCount && |stack| == StackDepth &&
      |screen| == ScreenSize && |keys| == KeyCount && sp <= StackDepth
    }
  }

  /** Accesses outside the interpreter's arrays. */
  datatype Fault =
    | PcOutOfRange       // the second byte of the fetch is past memory
    | StackOverflow      // 2NNN with all 16 slots in use
    | StackUnderflow     // 00EE with an empty stack
    | MemoryOutOfRange   // DXYN, FX33, FX55 or FX65 past the end of memory
    | ScreenOutOfRange   // DXYN lights a pixel past the end of the screen
    | KeyOutOfRange      // EX9E or EXA1 with VX > 0xF

  /** The instructions the dispatcher tells apart. */
  datatype Instr =
    | Cls                                    // 00E0
    | Ret                                    // 00EE
    | Jump(nnn: Addr)                        // 1NNN
    | Call(nnn: Addr)                        // 2NNN
    | SkipEqImm(x: Nibble, nn: Byte)         // 3XNN
    | SkipNeImm(x: Nibble, nn: Byte)         // 4XNN
    | SkipEqReg(x: Nibble, y: Nibble)        // 5XY0, any low nibble
    | LoadImm(x: Nibble, nn: Byte)           // 6XNN
    | AddImm(x: Nibble, nn: Byte)            // 7XNN
    | Move(x: Nibble, y: Nibble)             // 8XY0
    | Or(x: Nibble, y: Nibble)               // 8XY1
    | And(x: Nibble, y: Nibble)              // 8XY2
    | Xor(x: Nibble, y: Nibble)              // 8XY3
    | AddReg(x: Nibble, y: Nibble)           // 8XY4
    | SubReg(x: Nibble, y: Nibble)           // 8XY5
    | ShiftRight(x: Nibble)                  // 8XY6, Y ignored
    | SubReverse(x: Nibble, y: Nibble)       // 8XY7
    | ShiftLeft(x: Nibble)                   // 8XYE, Y ignored
    | SkipNeReg(x: Nibble, y: Nibble)        // 9XY0: has a handler, never dispatched
    | LoadIndex(nnn: Addr)                   // ANNN
    | JumpOffset(nnn: Addr)                  // BNNN
    | Random(x: Nibble, nn: Byte)            // CXNN
    | Draw(x: Nibble, y: Nibble, n: Nibble)  // DXYN
    | SkipKey(x: Nibble)                     // EX9E, any EX?E
    | SkipNoKey(x: Nibble)                   // EXA1, any EX?1
    | ReadDelay(x: Nibble)                   // FX07
    | WaitKey(x: Nibble)                     // FX0A
    | SetDelay(x: Nibble)                    // FX15
    | SetSound(x: Nibble)                    // FX18
    | AddIndex(x: Nibble)                    // FX1E
    | FontGlyph(x: Nibble)                   // FX29
    | StoreBcd(x: Nibble)                    // FX33
    | StoreRegs(x: Nibble)                   // FX55
    | LoadRegs(x: Nibble)                    // FX65
    | Unassigned                             // matches no case: no effect

  /** The dispatcher of the cycle: first nibble, then N for groups 8 and E,
      NN for group F, and the whole word for group 0. It never yields 9XY0,
      and only groups 0, 8, 9, E and F hold unassigned opcodes. */
  function Decode(op: Word): (r: Instr)
    ensures !r.SkipNeReg?
    ensures r.Unassigned? ==> op / 0x1000 in {0x0, 0x8, 0x9, 0xE, 0xF}
  {
    var x, y := (op / 0x100) % 0x10, (op / 0x10) % 0x10;
    var n, nn, nnn := op % 0x10, op % 0x100, op % 0x1000;
    match op / 0x1000
    case 0x0 => if op == 0x00E0 then Cls else if op == 0x00EE then Ret else Unassigned
    case 0x1 => Jump(nnn)
    case 0x2 => Call(nnn)
    case 0x3 => SkipEqImm(x, nn)
    case 0x4 => SkipNeImm(x, nn)
    case 0x5 => SkipEqReg(x, y)
    case 0x6 => LoadImm(x, nn)
    case 0x7 => AddImm(x, nn)
    case 0x8 =>
      (match n
       case 0x0 => Move(x, y)
       case 0x1 => Or(x, y)
       case 0x2 => And(x, y)
       case 0x3 => Xor(x, y)
       case 0x4 => AddReg(x, y)
       case 0x5 => SubReg(x, y)
       case 0x6 => ShiftRight(x)
       case 0x7 => SubReverse(x, y)
       case 0xE => ShiftLeft(x)
       case _ => Unassigned)
    case 0x9 => Unassigned
    case 0xA => LoadIndex(nnn)
    case 0xB => JumpOffset(nnn)
    case 0xC => Random(x, nn)
    case 0xD => Draw(x, y, n)
    case 0xE => if n == 0xE then SkipKey(x) else if n == 0x1 then SkipNoKey(x) else Unassigned
    case _ =>
      match nn
      case 0x07 => ReadDelay(x)
      case 0x0A => WaitKey(x)
      case 0x15 => SetDelay(x)
      case 0x18 => SetSound(x)
      case 0x1E => AddIndex(x)
      case 0x29 => FontGlyph(x)
      case 0x33 => StoreBcd(x)
      case 0x55 => StoreRegs(x)
      case 0x65 => LoadRegs(x)
      case _ => Unassigned
  }

  /** The canonical opcode of an instruction (don't-care nibbles zero). */
  function Encode(ins: Instr): Word
    requires !ins.Unassigned?
  {
    match ins
    case Cls => 0x00E0
    case Ret => 0x00EE
    case Jump(nnn) => 0x1000 + nnn
    case Call(nnn) => 0x2000 + nnn
    case SkipEqImm(x, nn) => 0x3000 + x * 0x100 + nn
    case SkipNeImm(x, nn) => 0x4000 + x * 0x100 + nn
    case SkipEqReg(x, y) => 0x5000 + x * 0x100 + y * 0x10
    case LoadImm(x, nn) => 0x6000 + x * 0x100 + nn
    case AddImm(x, nn) => 0x7000 + x * 0x100 + nn
    case Move(x, y) => 0x8000 + x * 0x100 + y * 0x10
    case Or(x, y) => 0x8001 + x * 0x100 + y * 0x10
    case And(x, y) => 0x8002 + x * 0x100 + y * 0x10
    case Xor(x, y) => 0x8003 + x * 0x100 + y * 0x10
    case AddReg(x, y) => 0x8004 + x * 0x100 + y * 0x10
    case SubReg(x, y) => 0x8005 + x * 0x100 + y * 0x10
    case ShiftRight(x) => 0x8006 + x * 0x100
    case SubReverse(x, y) => 0x8007 + x * 0x100 + y * 0x10
    case ShiftLeft(x) => 0x800E + x * 0x100
    case SkipNeReg(x, y) => 0x9000 + x * 0x100 + y * 0x10
    case LoadIndex(nnn) => 0xA000 + nnn
    case JumpOffset(nnn) => 0xB000 + nnn
    case Random(x, nn) => 0xC000 + x * 0x100 + nn
    case Draw(x, y, n) => 0xD000 + x * 0x100 + y * 0x10 + n
    case SkipKey(x) => 0xE09E + x * 0x100
    case SkipNoKey(x) => 0xE0A1 + x * 0x100
    case ReadDelay(x) => 0xF007 + x * 0x100
    case WaitKey(x) => 0xF00A + x * 0x100
    case SetDelay(x) => 0xF015 + x * 0x100
    case SetSound(x) => 0xF018 + x * 0x100
    case AddIndex(x) => 0xF01E + x * 0x100
    case FontGlyph(x) => 0xF029 + x * 0x100
    case StoreBcd(x) => 0xF033 + x * 0x100
    case StoreRegs(x) => 0xF055 + x * 0x100
    case LoadRegs(x) => 0xF065 + x * 0x100
  }

  /** s with d written over it from position `at`. */
  function Overwrite<T>(s: seq<T>, at: nat, d: seq<T>): (r: seq<T>)
    requires at + |d| <= |s|
    ensures |r| == |s|
    ensures forall i :: 0 <= i < |d| ==> r[at + i] == d[i]
    ensures forall i :: 0 <= i < |s| && !(at <= i < at + |d|) ==> r[i] == s[i]
  {
    s[..at] + d + s[at + |d|..]
  }

  /** The decimal digits of v, hundreds first. */
  function Digits(v: Byte): (d: seq<Byte>)
    ensures |d| == 3 && d[0] < 10 && d[1] < 10 && d[2] < 10
    ensures 100 * (d[0] as int) + 10 * (d[1] as int) + d[2] as int == v
  {
    [(v / 100) % 10, (v / 10) % 10, v % 10]
  }

  /** The lowest-numbered key that is down, if any. */
  function FirstPressed(keys: seq<Byte>): (r: Option<nat>)
    ensures r.Some? ==> r.value < |keys| && keys[r.value] != 0
    ensures r.Some? ==> forall j :: 0 <= j < r.value ==> keys[j] == 0
    ensures r.None? ==> forall j :: 0 <= j < |keys| ==> keys[j] == 0
  {
    if |keys| == 0 then None
    else if keys[0] != 0 then Some(0)
    else match FirstPressed(keys[1..])
      case None => None
      case Some(i) => Some(i + 1)
  }

  /** VF after 8XY4: the carry out of the byte, so that the low byte of the
      sum and the flag together make the whole sum. */
  function CarryFlag(a: Byte, b: Byte): (r: Byte)
    ensures r <= 1 && Wrap8(a as int + b) + 0x100 * (r as int) == a as int + b
  {
    if a as int + b > 255 then 1 else 0
  }

  /** VF after 8XY5 (a = VX, b = VY) and 8XY7 (a = VY, b = VX): 1 iff a > b,
      strictly, so equal operands give 0 although nothing is borrowed. */
  function NotBorrowFlag(a: Byte, b: Byte): (r: Byte)
    ensures r <= 1
    ensures r == 1 ==> Wrap8(a as int - b) == a as int - b
    ensures r == 0 ==> Wrap8(a as int - b) == (if a == b then 0 else a as int - b + 0x100)
    ensures a == b ==> r == 0
  {
    if a > b then 1 else 0
  }

  /** The rows of the sprite DXYN reads: n bytes from memory at I. */
  function Sprite(memory: seq<Byte>, index: Word, n: Nibble): seq<Byte>
    requires n == 0 || index + n <= |memory|
  {
    if n == 0 then [] else memory[index..index + n]
  }

  /** The out-of-range access an instruction would make, if any. */
  function Check(m: Machine, ins: Instr): (r: Option<Fault>)
    requires m.Valid()
    ensures r.Some? ==> ins.Ret? || ins.Call? || ins.Draw? || ins.SkipKey? || ins.SkipNoKey? ||
                        ins.StoreBcd? || ins.StoreRegs? || ins.LoadRegs?
    ensures r != Some(PcOutOfRange)
  {
    match ins
    case Ret => if m.sp == 0 then Some(StackUnderflow) else None
    case Call(_) => if m.sp >= StackDepth then Some(StackOverflow) else None
    case Draw(x, y, n) =>
      if n > 0 && m.index + n > MemorySize then Some(MemoryOutOfRange)
      else if !SpriteFits(Sprite(m.memory, m.index, n), m.registers[x] % VideoWidth, m.registers[y] % VideoHeight)
      then Some(ScreenOutOfRange)
      else None
    case SkipKey(x) => if m.registers[x] >= KeyCount then Some(KeyOutOfRange) else None
    case SkipNoKey(x) => if m.registers[x] >= KeyCount then Some(KeyOutOfRange) else None
    case StoreBcd(_) => if m.index + 2 >= MemorySize then Some(MemoryOutOfRange) else None
    case StoreRegs(x) => if m.index + x >= MemorySize then Some(MemoryOutOfRange) else None
    case LoadRegs(x) => if m.index + x >= MemorySize then Some(MemoryOutOfRange) else None
    case _ => None
  }

  /** Some key is down, so FX0A can complete. */
  predicate CanRun(m: Machine, ins: Instr)
  {
    ins.WaitKey? ==> FirstPressed(m.keys).Some?
  }

  function SetReg(m: Machine, x: Nibble, v: Byte): Machine
    requires m.Valid()
  {
    m.(registers := m.registers[x := v])
  }

  /** Skip the next instruction when cond holds. */
  function SkipIf(m: Machine, cond: bool): Machine
  {
    if cond then m.(pc := Wrap16(m.pc + 2)) else m
  }

  /** The effect of one instruction on a machine whose pc already points past
      it. `rand` is what the C library's rand() returns for CXNN. */
  function Apply(m: Machine, ins: Instr, rand: nat): (r: Machine)
    requires m.Valid() && Check(m, ins).None? && CanRun(m, ins)
    ensures r.Valid() && r.keys == m.keys
  {
    if IsControl(ins) then ApplyControl(m, ins)
    else if IsArith(ins) then ApplyArith(m, ins)
    else if ins.Random? then ApplyRandom(m, ins.x, ins.nn, rand)
    else if ins.Draw? then ApplyDraw(m, ins.x, ins.y, ins.n)
    else if IsMisc(ins) then ApplyMisc(m, ins)
    else m
  }

  predicate IsControl(ins: Instr)
  {
    ins.Cls? || ins.Ret? || ins.Jump? || ins.Call? || ins.SkipEqImm? || ins.SkipNeImm? ||
    ins.SkipEqReg? || ins.SkipNeReg? || ins.JumpOffset? || ins.SkipKey? || ins.SkipNoKey?
  }

  predicate IsMisc(ins: Instr)
  {
    ins.LoadIndex? || ins.ReadDelay? || ins.WaitKey? || ins.SetDelay? || ins.SetSound? ||
    ins.AddIndex? || ins.FontGlyph? || ins.StoreBcd? || ins.StoreRegs? || ins.LoadRegs?
  }

  predicate IsArith(ins: Instr)
  {
    ins.LoadImm? || ins.AddImm? || ins.Move? || ins.Or? || ins.And? || ins.Xor? || ins.AddReg? ||
    ins.SubReg? || ins.ShiftRight? || ins.SubReverse? || ins.ShiftLeft?
  }

  /** Screen clearing, jumps, calls, returns and skips. */
  function ApplyControl(m: Machine, ins: Instr): (r: Machine)
    requires m.Valid() && IsControl(ins) && Check(m, ins).None?
    ensures r.Valid() && r.keys == m.keys
    ensures r.memory == m.memory && r.registers == m.registers && r.index == m.index
    ensures r.delayTimer == m.delayTimer && r.soundTimer == m.soundTimer
    ensures !ins.Cls? ==> r.screen == m.screen
  {
    match ins
    case Cls => m.(screen := Blank())
    case Ret => m.(sp := m.sp - 1, pc := m.stack[m.sp - 1])
    case Jump(nnn) => m.(pc := nnn)
    case Call(nnn) => m.(stack := m.stack[m.sp := m.pc], sp := m.sp + 1, pc := nnn)
    case SkipEqImm(x, nn) => SkipIf(m, m.registers[x] == nn)
    case SkipNeImm(x, nn) => SkipIf(m, m.registers[x] != nn)
    case SkipEqReg(x, y) => SkipIf(m, m.registers[x] == m.registers[y])
    case SkipNeReg(x, y) => SkipIf(m, m.registers[x] != m.registers[y])
    case JumpOffset(nnn) => m.(pc := m.registers[0] as int + nnn)
    case SkipKey(x) => SkipIf(m, m.keys[m.registers[x]] != 0)
    case SkipNoKey(x) => SkipIf(m, m.keys[m.registers[x]] == 0)
  }

  /** Register loads and arithmetic. An instruction that sets VF writes it
      first and then computes VX from the registers, so with X or Y = F the
      new flag is an operand. */
  function ApplyArith(m: Machine, ins: Instr): (r: Machine)
    requires m.Valid() && IsArith(ins)
    ensures r.Valid() && r.keys == m.keys
    ensures r == m.(registers := r.registers)
  {
    match ins
    case LoadImm(x, nn) => SetReg(m, x, nn)
    case AddImm(x, nn) => SetReg(m, x, Wrap8(m.registers[x] as int + nn))
    case Move(x, y) => SetReg(m, x, m.registers[y])
    case Or(x, y) => SetReg(m, x, BitOr(m.registers[x], m.registers[y]))
    case And(x, y) => SetReg(m, x, BitAnd(m.registers[x], m.registers[y]))
    case Xor(x, y) => SetReg(m, x, BitXor(m.registers[x], m.registers[y]))
    case AddReg(x, y) =>
      var f := SetReg(m, Flag, CarryFlag(m.registers[x], m.registers[y]));
      SetReg(f, x, Wrap8(f.registers[x] as int + f.registers[y]))
    case SubReg(x, y) =>
      var f := SetReg(m, Flag, NotBorrowFlag(m.registers[x], m.registers[y]));
      SetReg(f, x, Wrap8(f.registers[x] as int - f.registers[y]))
    case ShiftRight(x) =>
      var f := SetReg(m, Flag, m.registers[x] % 2);
      SetReg(f, x, f.registers[x] / 2)
    case SubReverse(x, y) =>
      var f := SetReg(m, Flag, NotBorrowFlag(m.registers[y], m.registers[x]));
      SetReg(f, x, Wrap8(f.registers[y] as int - f.registers[x]))
    case ShiftLeft(x) =>
      var f := SetReg(m, Flag, m.registers[x] / 0x80);
      SetReg(f, x, Wrap8(2 * (f.registers[x] as int)))
  }

  /** CXNN, where `rand` is what rand() returns: VX = (rand % 255) & NN. */
  function ApplyRandom(m: Machine, x: Nibble, nn: Byte, rand: nat): (r: Machine)
    requires m.Valid()
    ensures r.Valid() && r.keys == m.keys
    ensures r == m.(registers := r.registers)
  {
    SetReg(m, x, BitAnd(rand % 255, nn))
  }

  /** DXYN: VF is cleared, then set by the XOR draw iff a lit cell was hit.
      The corner is read from VX and VY before VF is written. */
  function ApplyDraw(m: Machine, x: Nibble, y: Nibble, n: Nibble): (r: Machine)
    requires m.Valid() && Check(m, Draw(x, y, n)).None?
    ensures r.Valid() && r.keys == m.keys
    ensures r == m.(screen := r.screen, registers := m.registers[Flag := r.registers[Flag]])
    ensures r.registers[Flag] <= 1
  {
    var px, py := m.registers[x] % VideoWidth, m.registers[y] % VideoHeight;
    var sprite := Sprite(m.memory, m.index, n);
    m.(screen := DrawSprite(m.screen, sprite, px, py),
       registers := m.registers[Flag := if Collides(m.screen, sprite, px, py) then 1 else 0])
  }

  /** ANNN and the F group: timers, key wait, the index register and memory blocks. */
  function ApplyMisc(m: Machine, ins: Instr): (r: Machine)
    requires m.Valid() && IsMisc(ins) && Check(m, ins).None? && CanRun(m, ins)
    ensures r.Valid() && r.keys == m.keys
    ensures r.screen == m.screen && r.pc == m.pc && r.stack == m.stack && r.sp == m.sp
    ensures !ins.SetDelay? ==> r.delayTimer == m.delayTimer
    ensures !ins.SetSound? ==> r.soundTimer == m.soundTimer
    ensures !ins.StoreBcd? && !ins.StoreRegs? ==> r.memory == m.memory
  {
    match ins
    case LoadIndex(nnn) => m.(index := nnn)
    case ReadDelay(x) => SetReg(m, x, m.delayTimer)
    case WaitKey(x) => SetReg(m, x, m.keys[FirstPressed(m.keys).value])
    case SetDelay(x) => m.(delayTimer := m.registers[x])
    case SetSound(x) => m.(soundTimer := m.registers[x])
    case AddIndex(x) => m.(index := Wrap16(m.index as int + m.registers[x]))
    case FontGlyph(x) => m.(index := FontStart + 5 * (m.registers[x] as int))
    case StoreBcd(x) => m.(memory := Overwrite(m.memory, m.index, Digits(m.registers[x])))
    case StoreRegs(x) => m.(memory := Overwrite(m.memory, m.index, m.registers[..x + 1]))
    case LoadRegs(x) => m.(registers := Overwrite(m.registers, 0, m.memory[m.index..m.index + x + 1]))
  }

  /** What one instruction does: a new machine, no progress (FX0A with no
      key down), or a fault (nothing changes). */
  datatype Outcome = Next(next: Machine) | Stalled | Faulted(fault: Fault)

  function Execute(m: Machine, ins: Instr, rand: nat): (r: Outcome)
    requires m.Valid()
    ensures r.Faulted? <==> Check(m, ins).Some?
    ensures r.Stalled? ==> ins.WaitKey? && FirstPressed(m.keys).None?
    ensures r.Next? ==> r.next.Valid() && r.next.keys == m.keys
  {
    match Check(m, ins)
    case Some(f) => Faulted(f)
    case None => if CanRun(m, ins) then Next(Apply(m, ins, rand)) else Stalled
  }

  /** The big-endian opcode at pc. */
  function Fetch(m: Machine): (op: Word)
    requires m.Valid() && m.pc + 1 < MemorySize
    ensures op / 0x100 == m.memory[m.pc] && op % 0x100 == m.memory[m.pc + 1]
  {
    (m.memory[m.pc] as int) * 0x100 + m.memory[m.pc + 1]
  }

  /** pc moved past the fetched opcode, two bytes on modulo 2^16. */
  function Advance(m: Machine): (r: Machine)
    ensures r == m.(pc := r.pc)
    ensures (r.pc - m.pc - 2) % 0x1_0000 == 0
    ensures m.pc + 2 < 0x1_0000 ==> r.pc == m.pc + 2
  {
    m.(pc := Wrap16(m.pc + 2))
  }

  /** The end of every cycle: each timer drops by exactly one unless it is
      already 0, and nothing else changes. */
  function Tick(m: Machine): (r: Machine)
    ensures r == m.(delayTimer := r.delayTimer, soundTimer := r.soundTimer)
    ensures r.delayTimer <= m.delayTimer <= r.delayTimer + 1
    ensures r.delayTimer == m.delayTimer <==> m.delayTimer == 0
    ensures r.soundTimer <= m.soundTimer <= r.soundTimer + 1
    ensures r.soundTimer == m.soundTimer <==> m.soundTimer == 0
  {
    m.(delayTimer := if m.delayTimer > 0 then m.delayTimer - 1 else 0,
       soundTimer := if m.soundTimer > 0 then m.soundTimer - 1 else 0)
  }

  /** One cycle: fetch, advance pc by 2, execute, count the timers down. */
  function Step(m: Machine, rand: nat): (r: Outcome)
    requires m.Valid()
    ensures r.Next? ==> r.next.Valid() && r.next.keys == m.keys
  {
    if m.pc + 1 >= MemorySize then Faulted(PcOutOfRange)
    else
      match Execute(Advance(m), Decode(Fetch(m)), rand)
      case Next(m') => Next(Tick(m'))
      case other => other
  }

  /** The freshly constructed interpreter: font at 0x50, pc at 0x200,
      everything else zero. */
  function Initial(): (m: Machine)
    ensures m.Valid() && m.pc == ProgramStart && m.index == 0 && m.sp == 0
    ensures m.delayTimer == 0 && m.soundTimer == 0
    ensures forall i :: 0 <= i < FontSize ==> m.memory[FontStart + i] == Fontset[i]
    ensures forall a :: 0 <= a < MemorySize && !(FontStart <= a < FontStart + FontSize) ==> m.memory[a] == 0
    ensures forall i :: 0 <= i < RegisterCount ==> m.registers[i] == 0 && m.keys[i] == 0 && m.stack[i] == 0
    ensures m.screen == Blank()
  {
    Machine(
      seq(MemorySize, a requires 0 <= a < MemorySize =>
        if FontStart <= a < FontStart + FontSize then Fontset[a - FontStart] else 0),
      seq(RegisterCount, _ => 0), 0, ProgramStart, seq(StackDepth, _ => 0), 0, 0, 0,
      Blank(), seq(KeyCount, _ => 0))
  }

  /** A ROM copied into memory from 0x200. */
  function Load(m: Machine, rom: seq<Byte>): (r: Machine)
    requires m.Valid() && |rom| <= MaxRomSize
    ensures r.Valid() && r == m.(memory := r.memory)
    ensures forall i :: 0 <= i < |rom| ==> r.memory[ProgramStart + i] == rom[i]
    ensures forall a :: 0 <= a < ProgramStart ==> r.memory[a] == m.memory[a]
  {
    m.(memory := Overwrite(m.memory, ProgramStart, rom))
  }
}
