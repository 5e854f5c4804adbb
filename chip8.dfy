/** The interpreter object: fixed-size arrays and scalar registers updated in
    place by one handler per opcode, and the cycle that fetches, decodes,
    dispatches and counts the timers down. Every handler is proved to have
    exactly the effect that Chip8Spec.Apply gives its instruction, and a
    cycle exactly the effect of Chip8Spec.Step. */
module Chip8Machine {
  import opened Bits
  import opened Display
  import opened Chip8Spec

  /** What a cycle reports to the host. */
  datatype Status = Ran | AwaitingKey | Failed(fault: Fault)

  class Chip8 {
    /** the word fetched by the last cycle */
    var opcode: Word
    const memory: array<Byte>
    /** V0 to VF */
    const registers: array<Byte>
    /** the index register I */
    var index: Word
    var pc: Word
    const stack: array<Word>
    var sp: Byte
    var delayTimer: Byte
    var soundTimer: Byte
    /** the last value CXNN drew */
    var randomNum: Byte
    /** written by the host: nonzero while the key is down */
    const key: array<Byte>
    const screen: array<bool>

    ghost predicate Valid()
      reads this
    {
      memory.Length == MemorySize && registers.Length == RegisterCount &&
      stack.Length == StackDepth && key.Length == KeyCount && screen.Length == ScreenSize &&
      sp <= StackDepth &&
      memory != registers && memory != key && registers != key
    }

    /** The machine value the fields and arrays hold. */
    function State(): (m: Machine)
      reads this, memory, registers, stack, key, screen
      requires Valid()
      ensures m.Valid()
    {
      Machine(memory[..], registers[..], index, pc, stack[..], sp, delayTimer, soundTimer,
              screen[..], key[..])
    }

    /** Everything zero, pc at 0x200 and the font copied to 0x50. The random
        generator's seeding is not modelled: CXNN takes rand()'s value. */
    constructor ()
      ensures Valid() && State() == Initial() && opcode == 0 && randomNum == 0
      ensures fresh(memory) && fresh(registers) && fresh(stack) && fresh(key) && fresh(screen)
    {
      opcode, index, sp, delayTimer, soundTimer, randomNum := 0, 0, 0, 0, 0, 0;
      registers := new Byte[RegisterCount](_ => 0);
      stack := new Word[StackDepth](_ => 0);
      key := new Byte[KeyCount](_ => 0);
      screen := new bool[ScreenSize](_ => false);
      memory := new Byte[MemorySize](_ => 0);
      new;
      pc := ProgramStart;
      for i := 0 to FontSize
        modifies memory
        invariant forall j :: 0 <= j < i ==> memory[FontStart + j] == Fontset[j]
        invariant forall a :: 0 <= a < MemorySize && !(FontStart <= a < FontStart + i) ==> memory[a] == 0
      {
        memory[FontStart + i] := Fontset[i];
      }
      assert memory[..] == Initial().memory;
      assert registers[..] == Initial().registers;
      assert stack[..] == Initial().stack;
      assert key[..] == Initial().keys;
      assert screen[..] == Blank();
    }

    /** The copy loop of loadROM, with the ROM's bytes given. A ROM longer
        than the 3584 bytes from 0x200 to the end of memory is refused and
        nothing is written. */
    method LoadRom(rom: seq<Byte>) returns (loaded: bool)
      requires Valid()
      modifies memory
      ensures loaded == (|rom| <= MaxRomSize)
      ensures State() == if loaded then Load(old(State()), rom) else old(State())
    {
      if |rom| > MaxRomSize {
        return false;
      }
      for i := 0 to |rom|
        invariant forall a :: 0 <= a < MemorySize ==>
          memory[a] == if ProgramStart <= a < ProgramStart + i then rom[a - ProgramStart] else old(memory[a])
      {
        memory[ProgramStart + i] := rom[i];
      }
      assert memory[..] == Overwrite(old(memory[..]), ProgramStart, rom);
      return true;
    }

    /** One cycle. A fault or a key wait with no key down is reported and
        changes nothing; otherwise pc moves past the opcode, the handler
        runs, and each timer drops by one if positive. */
    method Cycle(rand: nat) returns (status: Status)
      requires Valid()
      modifies this, memory, registers, stack, screen
      ensures Valid()
      ensures match Step(old(State()), rand)
        case Next(m) => status == Ran && State() == m
        case Stalled => status == AwaitingKey && State() == old(State())
        case Faulted(f) => status == Failed(f) && State() == old(State())
      ensures old(pc) + 1 < MemorySize ==> opcode == Fetch(old(State()))
    {
      ghost var m0 := State();
      if pc + 1 >= MemorySize {
        return Failed(PcOutOfRange);
      }
      opcode := (memory[pc] as int) * 0x100 + memory[pc + 1];
      assert State() == m0 && opcode == Fetch(m0);
      var ins := Decode(opcode);
      var next := Advance(State());
      var fault := Check(next, ins);
      if fault.Some? {
        assert Step(m0, rand) == Faulted(fault.value);
        return Failed(fault.value);
      }
      if !CanRun(next, ins) {
        assert Step(m0, rand) == Stalled;
        return AwaitingKey;
      }
      pc := Wrap16(pc as int + 2);
      assert State() == next;
      Dispatch(ins, rand);
      ghost var m1 := State();
      assert m1 == Apply(next, ins, rand);
      CountDown();
      assert State() == Tick(m1);
      assert Step(m0, rand) == Next(State());
      return Ran;
    }

    /** The timer step at the end of a cycle. */
    method CountDown()
      requires Valid()
      modifies this`delayTimer, this`soundTimer
      ensures Valid() && State() == Tick(old(State()))
    {
      if delayTimer > 0 {
        delayTimer := delayTimer - 1;
      }
      if soundTimer > 0 {
        soundTimer := soundTimer - 1;
      }
    }

    /** The switch of the cycle, from a decoded instruction to its handler. */
    method Dispatch(ins: Instr, rand: nat)
      requires Valid() && Check(State(), ins).None? && CanRun(State(), ins)
      modifies this`pc, this`index, this`sp, this`delayTimer, this`soundTimer, this`randomNum,
        memory, registers, stack, screen
      ensures Valid() && State() == Apply(old(State()), ins, rand)
    {
      if IsControl(ins) {
        DispatchControl(ins);
      } else if IsArith(ins) {
        DispatchArith(ins);
      } else if ins.Random? {
        OpCXNN(ins.x, ins.nn, rand);
      } else if ins.Draw? {
        OpDXYN(ins.x, ins.y, ins.n);
      } else if IsMisc(ins) {
        DispatchMisc(ins);
      }
    }

    method DispatchControl(ins: Instr)
      requires Valid() && IsControl(ins) && Check(State(), ins).None?
      modifies this`pc, this`sp, stack, screen
      ensures Valid() && State() == ApplyControl(old(State()), ins)
    {
      match ins
      case Cls => Op00E0();
      case Ret => Op00EE();
      case Jump(nnn) => Op1NNN(nnn);
      case Call(nnn) => Op2NNN(nnn);
      case SkipEqImm(x, nn) => Op3XNN(x, nn);
      case SkipNeImm(x, nn) => Op4XNN(x, nn);
      case SkipEqReg(x, y) => Op5XY0(x, y);
      case SkipNeReg(x, y) => Op9XY0(x, y);
      case JumpOffset(nnn) => OpBNNN(nnn);
      case SkipKey(x) => OpEX9E(x);
      case SkipNoKey(x) => OpEXA1(x);
    }

    method DispatchArith(ins: Instr)
      requires Valid() && IsArith(ins)
      modifies registers
      ensures State() == ApplyArith(old(State()), ins)
    {
      match ins
      case LoadImm(x, nn) => Op6XNN(x, nn);
      case AddImm(x, nn) => Op7XNN(x, nn);
      case Move(x, y) => Op8XY0(x, y);
      case Or(x, y) => Op8XY1(x, y);
      case And(x, y) => Op8XY2(x, y);
      case Xor(x, y) => Op8XY3(x, y);
      case AddReg(x, y) => Op8XY4(x, y);
      case SubReg(x, y) => Op8XY5(x, y);
      case ShiftRight(x) => Op8XY6(x);
      case SubReverse(x, y) => Op8XY7(x, y);
      case ShiftLeft(x) => Op8XYE(x);
    }

    method DispatchMisc(ins: Instr)
      requires Valid() && IsMisc(ins) && Check(State(), ins).None? && CanRun(State(), ins)
      modifies this`index, this`delayTimer, this`soundTimer, memory, registers
      ensures Valid() && State() == ApplyMisc(old(State()), ins)
    {
      match ins
      case LoadIndex(nnn) => OpANNN(nnn);
      case ReadDelay(x) => OpFX07(x);
      case WaitKey(x) => OpFX0A(x);
      case SetDelay(x) => OpFX15(x);
      case SetSound(x) => OpFX18(x);
      case AddIndex(x) => OpFX1E(x);
      case FontGlyph(x) => OpFX29(x);
      case StoreBcd(x) => OpFX33(x);
      case StoreRegs(x) => OpFX55(x);
      case LoadRegs(x) => OpFX65(x);
    }

    /** 00E0: every pixel off. */
    method Op00E0()
      requires Valid()
      modifies screen
      ensures State() == ApplyControl(old(State()), Cls)
    {
      forall i | 0 <= i < screen.Length {
        screen[i] := false;
      }
      assert screen[..] == Blank();
    }

    /** 00EE: pop the return address. */
    method Op00EE()
      requires Valid() && sp > 0
      modifies this`pc, this`sp
      ensures Valid() && State() == ApplyControl(old(State()), Ret)
    {
      sp := sp - 1;
      pc := stack[sp];
    }

    /** 1NNN */
    method Op1NNN(nnn: Addr)
      requires Valid()
      modifies this`pc
      ensures Valid() && State() == ApplyControl(old(State()), Jump(nnn))
    {
      pc := nnn;
    }

    /** 2NNN: push pc, then jump. */
    method Op2NNN(nnn: Addr)
      requires Valid() && sp < StackDepth
      modifies this`pc, this`sp, stack
      ensures Valid() && State() == ApplyControl(old(State()), Call(nnn))
    {
      stack[sp] := pc;
      sp := sp + 1;
      pc := nnn;
    }

    /** 3XNN */
    method Op3XNN(x: Nibble, nn: Byte)
      requires Valid()
      modifies this`pc
      ensures Valid() && State() == ApplyControl(old(State()), SkipEqImm(x, nn))
    {
      if registers[x] == nn {
        pc := Wrap16(pc as int + 2);
      }
    }

    /** 4XNN */
    method Op4XNN(x: Nibble, nn: Byte)
      requires Valid()
      modifies this`pc
      ensures Valid() && State() == ApplyControl(old(State()), SkipNeImm(x, nn))
    {
      if registers[x] != nn {
        pc := Wrap16(pc as int + 2);
      }
    }

    /** 5XY0 */
    method Op5XY0(x: Nibble, y: Nibble)
      requires Valid()
      modifies this`pc
      ensures Valid() && State() == ApplyControl(old(State()), SkipEqReg(x, y))
    {
      if registers[x] == registers[y] {
        pc := Wrap16(pc as int + 2);
      }
    }

    /** 6XNN */
    method Op6XNN(x: Nibble, nn: Byte)
      requires Valid()
      modifies registers
      ensures State() == ApplyArith(old(State()), LoadImm(x, nn))
    {
      registers[x] := nn;
    }

    /** 7XNN: VF untouched. */
    method Op7XNN(x: Nibble, nn: Byte)
      requires Valid()
      modifies registers
      ensures State() == ApplyArith(old(State()), AddImm(x, nn))
    {
      registers[x] := Wrap8(registers[x] as int + nn);
    }

    /** 8XY0 */
    method Op8XY0(x: Nibble, y: Nibble)
      requires Valid()
      modifies registers
      ensures State() == ApplyArith(old(State()), Move(x, y))
    {
      registers[x] := registers[y];
    }

    /** 8XY1 */
    method Op8XY1(x: Nibble, y: Nibble)
      requires Valid()
      modifies registers
      ensures State() == ApplyArith(old(State()), Or(x, y))
    {
      registers[x] := BitOr(registers[x], registers[y]);
    }

    /** 8XY2 */
    method Op8XY2(x: Nibble, y: Nibble)
      requires Valid()
      modifies registers
      ensures State() == ApplyArith(old(State()), And(x, y))
    {
      registers[x] := BitAnd(registers[x], registers[y]);
    }

    /** 8XY3 */
    method Op8XY3(x: Nibble, y: Nibble)
      requires Valid()
      modifies registers
      ensures State() == ApplyArith(old(State()), Xor(x, y))
    {
      registers[x] := BitXor(registers[x], registers[y]);
    }

    /** 8XY4: carry into VF, then the low 8 bits of the sum into VX. */
    method Op8XY4(x: Nibble, y: Nibble)
      requires Valid()
      modifies registers
      ensures State() == ApplyArith(old(State()), AddReg(x, y))
    {
      if registers[x] as int + registers[y] > 255 {
        registers[Flag] := 1;
      } else {
        registers[Flag] := 0;
      }
      registers[x] := Wrap8(registers[x] as int + registers[y]);
    }

    /** 8XY5: VF = 1 iff VX > VY, then VX - VY modulo 256. */
    method Op8XY5(x: Nibble, y: Nibble)
      requires Valid()
      modifies registers
      ensures State() == ApplyArith(old(State()), SubReg(x, y))
    {
      if registers[x] > registers[y] {
        registers[Flag] := 1;
      } else {
        registers[Flag] := 0;
      }
      registers[x] := Wrap8(registers[x] as int - registers[y]);
    }

    /** 8XY6: the low bit into VF, then VX halved. */
    method Op8XY6(x: Nibble)
      requires Valid()
      modifies registers
      ensures State() == ApplyArith(old(State()), ShiftRight(x))
    {
      registers[Flag] := registers[x] % 2;
      registers[x] := registers[x] / 2;
    }

    /** 8XY7: VF = 1 iff VY > VX, then VY - VX modulo 256. */
    method Op8XY7(x: Nibble, y: Nibble)
      requires Valid()
      modifies registers
      ensures State() == ApplyArith(old(State()), SubReverse(x, y))
    {
      if registers[y] > registers[x] {
        registers[Flag] := 1;
      } else {
        registers[Flag] := 0;
      }
      registers[x] := Wrap8(registers[y] as int - registers[x]);
    }

    /** 8XYE: the high bit into VF, then VX doubled modulo 256. */
    method Op8XYE(x: Nibble)
      requires Valid()
      modifies registers
      ensures State() == ApplyArith(old(State()), ShiftLeft(x))
    {
      registers[Flag] := registers[x] / 0x80;
      registers[x] := Wrap8(2 * (registers[x] as int));
    }

    /** 9XY0: the cycle never calls this handler. */
    method Op9XY0(x: Nibble, y: Nibble)
      requires Valid()
      modifies this`pc
      ensures Valid() && State() == ApplyControl(old(State()), SkipNeReg(x, y))
    {
      if registers[x] != registers[y] {
        pc := Wrap16(pc as int + 2);
      }
    }

    /** ANNN */
    method OpANNN(nnn: Addr)
      requires Valid()
      modifies this`index
      ensures Valid() && State() == ApplyMisc(old(State()), LoadIndex(nnn))
    {
      index := nnn;
    }

    /** BNNN */
    method OpBNNN(nnn: Addr)
      requires Valid()
      modifies this`pc
      ensures Valid() && State() == ApplyControl(old(State()), JumpOffset(nnn))
    {
      pc := registers[0] as int + nnn;
    }

    /** CXNN, where rand is the value rand() returned. */
    method OpCXNN(x: Nibble, nn: Byte, rand: nat)
      requires Valid()
      modifies this`randomNum, registers
      ensures Valid() && State() == ApplyRandom(old(State()), x, nn, rand)
      ensures randomNum == rand % 255
    {
      randomNum := rand % 255;
      var masked := BitAnd(randomNum, nn);
      registers[x] := masked;
      assert registers[..] == old(registers[..])[x := masked];
    }

    /** DXYN: VF cleared, then each lit pixel of each sprite row, most
        significant bit first, toggles its cell and raises VF if the cell
        was on. */
    method OpDXYN(x: Nibble, y: Nibble, n: Nibble)
      requires Valid() && Check(State(), Draw(x, y, n)).None?
      modifies registers, screen
      ensures State() == ApplyDraw(old(State()), x, y, n)
    {
      var xPos := registers[x] % VideoWidth;
      var yPos := registers[y] % VideoHeight;
      ghost var sprite := Sprite(memory[..], index, n);
      ghost var before := screen[..];
      ghost var regs := registers[..];
      registers[Flag] := 0;
      assert DrawPartial(before, sprite, xPos, yPos, 0) == before;
      var row := 0;
      while row < n
        invariant 0 <= row <= n
        invariant screen[..] == DrawPartial(before, sprite, xPos, yPos, row * 8)
        invariant registers[..] == regs[Flag := if CollidedBefore(before, sprite, xPos, yPos, row * 8) then 1 else 0]
      {
        DrawRow(before, sprite, regs, xPos, yPos, row, memory[index + row]);
        row := row + 1;
      }
    }

    /** One sprite row of DXYN: its eight pixels, left to right. */
    method DrawRow(ghost before: seq<bool>, ghost sprite: seq<Byte>, ghost regs: seq<Byte>,
                   xPos: nat, yPos: nat, row: nat, spriteByte: Byte)
      requires Valid() && |before| == ScreenSize && |regs| == RegisterCount
      requires row < |sprite| && sprite[row] == spriteByte && SpriteFits(sprite, xPos, yPos)
      requires screen[..] == DrawPartial(before, sprite, xPos, yPos, row * 8)
      requires registers[..] == regs[Flag := if CollidedBefore(before, sprite, xPos, yPos, row * 8) then 1 else 0]
      modifies registers, screen
      ensures screen[..] == DrawPartial(before, sprite, xPos, yPos, row * 8 + 8)
      ensures registers[..] == regs[Flag := if CollidedBefore(before, sprite, xPos, yPos, row * 8 + 8) then 1 else 0]
    {
      var col := 0;
      while col < 8
        invariant 0 <= col <= 8
        invariant screen[..] == DrawPartial(before, sprite, xPos, yPos, row * 8 + col)
        invariant registers[..] == regs[Flag := if CollidedBefore(before, sprite, xPos, yPos, row * 8 + col) then 1 else 0]
      {
        DrawPixel(before, sprite, regs, xPos, yPos, row, col, spriteByte);
        col := col + 1;
      }
    }

    /** One pixel of DXYN: if lit, it toggles its cell and raises VF when
        the cell was on. */
    method DrawPixel(ghost before: seq<bool>, ghost sprite: seq<Byte>, ghost regs: seq<Byte>,
                     xPos: nat, yPos: nat, row: nat, col: nat, spriteByte: Byte)
      requires Valid() && |before| == ScreenSize && |regs| == RegisterCount
      requires row < |sprite| && col < 8 && sprite[row] == spriteByte && SpriteFits(sprite, xPos, yPos)
      requires screen[..] == DrawPartial(before, sprite, xPos, yPos, row * 8 + col)
      requires registers[..] == regs[Flag := if CollidedBefore(before, sprite, xPos, yPos, row * 8 + col) then 1 else 0]
      modifies registers, screen
      ensures screen[..] == DrawPartial(before, sprite, xPos, yPos, row * 8 + col + 1)
      ensures registers[..] == regs[Flag := if CollidedBefore(before, sprite, xPos, yPos, row * 8 + col + 1) then 1 else 0]
    {
      DrawStep(before, sprite, xPos, yPos, row, col);
      CollisionStep(before, sprite, xPos, yPos, row, col);
      if SpriteBit(spriteByte, col) {
        var cell := (yPos + row) * VideoWidth + (xPos + col);
        if screen[cell] {
          registers[Flag] := 1;
        }
        screen[cell] := !screen[cell];
      }
    }

    /** EX9E */
    method OpEX9E(x: Nibble)
      requires Valid() && registers[x] < KeyCount
      modifies this`pc
      ensures Valid() && State() == ApplyControl(old(State()), SkipKey(x))
    {
      if key[registers[x]] != 0 {
        pc := Wrap16(pc as int + 2);
      }
    }

    /** EXA1 */
    method OpEXA1(x: Nibble)
      requires Valid() && registers[x] < KeyCount
      modifies this`pc
      ensures Valid() && State() == ApplyControl(old(State()), SkipNoKey(x))
    {
      if key[registers[x]] == 0 {
        pc := Wrap16(pc as int + 2);
      }
    }

    /** FX07 */
    method OpFX07(x: Nibble)
      requires Valid()
      modifies registers
      ensures State() == ApplyMisc(old(State()), ReadDelay(x))
    {
      registers[x] := delayTimer;
    }

    /** FX0A with some key down: the scan stops at the lowest such key and
        stores its flag value (not its number) in VX. */
    method OpFX0A(x: Nibble)
      requires Valid() && FirstPressed(key[..]).Some?
      modifies registers
      ensures State() == ApplyMisc(old(State()), WaitKey(x))
    {
      var i := 0;
      while key[i] == 0
        invariant 0 <= i <= FirstPressed(key[..]).value
        decreases KeyCount - i
      {
        i := i + 1;
      }
      registers[x] := key[i];
    }

    /** FX15 */
    method OpFX15(x: Nibble)
      requires Valid()
      modifies this`delayTimer
      ensures Valid() && State() == ApplyMisc(old(State()), SetDelay(x))
    {
      delayTimer := registers[x];
    }

    /** FX18 */
    method OpFX18(x: Nibble)
      requires Valid()
      modifies this`soundTimer
      ensures Valid() && State() == ApplyMisc(old(State()), SetSound(x))
    {
      soundTimer := registers[x];
    }

    /** FX1E: I += VX in 16 bits. */
    method OpFX1E(x: Nibble)
      requires Valid()
      modifies this`index
      ensures Valid() && State() == ApplyMisc(old(State()), AddIndex(x))
    {
      index := Wrap16(index as int + registers[x]);
    }

    /** FX29: the glyph address of the whole byte VX. */
    method OpFX29(x: Nibble)
      requires Valid()
      modifies this`index
      ensures Valid() && State() == ApplyMisc(old(State()), FontGlyph(x))
    {
      index := FontStart + 5 * (registers[x] as int);
    }

    /** FX33: ones, then tens, then hundreds. */
    method OpFX33(x: Nibble)
      requires Valid() && index + 2 < MemorySize
      modifies memory
      ensures State() == ApplyMisc(old(State()), StoreBcd(x))
    {
      var val := registers[x];
      memory[index + 2] := val % 10;
      val := val / 10;
      memory[index + 1] := val % 10;
      val := val / 10;
      memory[index] := val % 10;
      assert memory[..] == Overwrite(old(memory[..]), index, Digits(registers[x]));
    }

    /** FX55: V0 to VX into memory from I, in ascending order. */
    method OpFX55(x: Nibble)
      requires Valid() && index + x < MemorySize
      modifies memory
      ensures State() == ApplyMisc(old(State()), StoreRegs(x))
    {
      for i := 0 to x + 1
        invariant forall a :: 0 <= a < MemorySize ==>
          memory[a] == if index <= a < index + i then registers[a - index] else old(memory[a])
      {
        memory[index + i] := registers[i];
      }
      assert memory[..] == Overwrite(old(memory[..]), index, registers[..x + 1]);
    }

    /** FX65: V0 to VX from memory at I, in ascending order. */
    method OpFX65(x: Nibble)
      requires Valid() && index + x < MemorySize
      modifies registers
      ensures State() == ApplyMisc(old(State()), LoadRegs(x))
    {
      ghost var block := memory[index..index + x + 1];
      for i := 0 to x + 1
        invariant forall r :: 0 <= r < RegisterCount ==>
          registers[r] == if r < i then block[r] else old(registers[r])
      {
        registers[i] := memory[index + i];
      }
      assert registers[..] == Overwrite(old(registers[..]), 0, block);
    }
  }
}
