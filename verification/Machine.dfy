/** The emulated CPU as a state machine on values: registers, memory, and the pending-branch slot. */
module Machine {
  import opened Bytes
  import opened Opcodes
  import opened StatusRegister

  // The address that stands for "no address" and "no branch".
  const INVALID_ADDRESS: word := 0xFFFF
  const RESERVED_START: word := 0xFFFA
  const RESET_VECTOR: word := 0xFFFC
  const BREAK_VECTOR: word := 0xFFFE
  const STACK_BASE: word := 0x100

  type Memory = m: seq<byte> | |m| == 0x1_0000 witness seq(0x1_0000, i => 0)

  datatype Core = Core(sp: byte, a: byte, x: byte, y: byte, p: Flags, mem: Memory)

  // All registers and all memory zero.
  function Cleared(): Core {
    Core(0, 0, 0, 0, Flags(false, false, false, false, false, false, false, false), seq<byte>(0x1_0000, i => 0))
  }

  // branched is the pending-branch slot: the next fetch consumes it unless it is INVALID_ADDRESS.
  datatype State = State(pc: word, branched: word, core: Core)

  datatype Outcome<+T> = Running(state: T) | Aborted

  datatype Reg = RegSP | RegA | RegX | RegY | RegP | RegInvalid

  // ---------- memory ----------

  /**
   * The hooks as the processor sees them: address translation, what a read of a translated address
   * returns (given the byte in the cell), and what a write of a byte leaves in the cell.
   */
  datatype Bus = Bus(transl: word -> word, read: (word, byte) -> byte, write: (word, byte) -> byte)

  // No hooks at all.
  const PLAIN_BUS := Bus((addr: word) => addr, (addr: word, cell: byte) => cell, (addr: word, v: byte) => v)

  function MemRead(bus: Bus, mem: Memory, addr: word): byte {
    bus.read(bus.transl(addr), mem[bus.transl(addr)])
  }

  /** No hook is concerned with this address. */
  ghost predicate Plain(bus: Bus, addr: word) {
    && bus.transl(addr) == addr
    && (forall v: byte :: bus.read(addr, v) == v)
    && (forall v: byte :: bus.write(addr, v) == v)
  }

  function MemRead16(bus: Bus, mem: Memory, addr: word): word {
    MakeWord(MemRead(bus, mem, ToWord(addr + 1)), MemRead(bus, mem, addr))
  }

  function MemWrite(bus: Bus, mem: Memory, addr: word, v: byte): Memory {
    mem[bus.transl(addr) := bus.write(bus.transl(addr), v)]
  }

  // The increment starts from the cell itself, not from what a read hook would return.
  function MemInc(bus: Bus, mem: Memory, addr: word, delta: int): Memory {
    MemWrite(bus, mem, addr, ToByte(mem[bus.transl(addr)] + delta))
  }

  // ---------- stack: memory page 1, bypassing every hook ----------

  function StackCell(sp: byte): word { STACK_BASE + sp }

  function Push(c: Core, v: byte): Core {
    c.(mem := c.mem[StackCell(c.sp) := v], sp := ToByte(c.sp - 1))
  }

  function Push16(c: Core, v: word): Core {
    Push(Push(c, HighByte(v)), LowByte(v))
  }

  function Popped(c: Core): Core { c.(sp := ToByte(c.sp + 1)) }

  function Top(c: Core): byte { c.mem[StackCell(ToByte(c.sp + 1))] }

  function Top16(c: Core): word { MakeWord(Top(Popped(c)), Top(c)) }

  // ---------- registers ----------

  function GetReg(c: Core, r: Reg): byte {
    match r
    case RegSP => c.sp
    case RegA => c.a
    case RegX => c.x
    case RegY => c.y
    case RegP => Pack(c.p)
    case RegInvalid => 0
  }

  function SetReg(c: Core, r: Reg, v: byte): Core {
    match r
    case RegSP => c.(sp := v)
    case RegA => c.(a := v)
    case RegX => c.(x := v)
    case RegY => c.(y := v)
    case RegP => c.(p := Unpack(v))
    case RegInvalid => c
  }

  // ---------- effects of the instruction primitives on the core ----------

  function BasicFlags(p: Flags, v: byte): Flags { p.(z := v == 0, n := v >= 0x80) }

  function WithBasic(c: Core, v: byte): Core { c.(p := BasicFlags(c.p, v)) }

  /** Register transfer; N and Z follow the value except for SP and the status register. */
  function LoadReg(c: Core, r: Reg, v: byte): Core {
    var c' := SetReg(c, r, v);
    if r == RegP || r == RegSP then c' else WithBasic(c', GetReg(c', r))
  }

  function StoreReg(bus: Bus, c: Core, addr: word, r: Reg): Core {
    c.(mem := MemWrite(bus, c.mem, addr, GetReg(c, r)))
  }

  function PullReg(c: Core, r: Reg): Core { LoadReg(Popped(c), r, Top(c)) }

  function IncMem(bus: Bus, c: Core, addr: word, delta: int): Core {
    var c' := c.(mem := MemInc(bus, c.mem, addr, delta));
    WithBasic(c', MemRead(bus, c'.mem, addr))
  }

  function Carry(p: Flags): int { if p.c then 1 else 0 }

  function Add(c: Core, v: byte): Core {
    var sum := c.a + v + Carry(c.p);
    c.(a := ToByte(sum), p := BasicFlags(c.p, ToByte(sum)).(c := sum > 0xFF, v := false))
  }

  function Subtract(c: Core, v: byte): Core {
    var diff := c.a - v - (1 - Carry(c.p));
    c.(a := ToByte(diff), p := BasicFlags(c.p, ToByte(diff)).(c := diff >= 0, v := false))
  }

  function Compare(c: Core, r: Reg, v: byte): Core {
    c.(p := BasicFlags(c.p, ToByte(GetReg(c, r) - v)).(c := GetReg(c, r) >= v))
  }

  function And(c: Core, v: byte): Core { WithBasic(c, BitAnd(c.a, v)).(a := BitAnd(c.a, v)) }

  // N and Z come from the accumulator as it was before the operation.
  function ExclusiveOr(c: Core, v: byte): Core { WithBasic(c, c.a).(a := BitXor(c.a, v)) }

  function InclusiveOr(c: Core, v: byte): Core { WithBasic(c, c.a).(a := BitOr(c.a, v)) }

  // The accumulator takes no part: zero is tested, whatever the operand.
  function BitTest(c: Core): Core { WithBasic(c, 0) }

  function ShiftedOut(v: byte, left: bool): bool { if left then v >= 0x80 else v % 2 == 1 }

  function Shifted(v: byte, left: bool, fill: bool): byte {
    if left then ToByte(2 * v) + (if fill then 1 else 0)
    else v / 2 + (if fill then 0x80 else 0)
  }

  function ShiftMem(bus: Bus, c: Core, addr: word, left: bool, fill: bool): Core {
    var v := MemRead(bus, c.mem, addr);
    var mem := MemWrite(bus, c.mem, addr, Shifted(v, left, fill));
    WithBasic(c.(mem := mem, p := c.p.(c := ShiftedOut(v, left))), MemRead(bus, mem, addr))
  }

  function ShiftAcc(c: Core, left: bool, fill: bool): Core {
    LoadReg(c.(p := c.p.(c := ShiftedOut(c.a, left))), RegA, Shifted(c.a, left, fill))
  }

  // ---------- addressing ----------

  function OperandByte(bus: Bus, s: State): byte { MemRead(bus, s.core.mem, ToWord(s.pc + 1)) }

  function OperandWord(bus: Bus, s: State): word { MemRead16(bus, s.core.mem, ToWord(s.pc + 1)) }

  /** The effective address; INVALID_ADDRESS for the modes that have none. */
  function Addr(bus: Bus, s: State, mode: AddrMode): word {
    match mode
    case Implied | Accumulator => INVALID_ADDRESS
    case Immediate => ToWord(s.pc + 1)
    case ZeroPage => OperandByte(bus, s)
    case ZeroPageX => OperandByte(bus, s) + s.core.x
    case ZeroPageY => OperandByte(bus, s) + s.core.y
    case Relative => ToWord(s.pc + 2 + Signed(OperandByte(bus, s)))
    case Absolute => OperandWord(bus, s)
    case AbsoluteX => ToWord(OperandWord(bus, s) + s.core.x)
    case AbsoluteY => ToWord(OperandWord(bus, s) + s.core.y)
    case Indirect => MemRead16(bus, s.core.mem, OperandWord(bus, s))
    case IndexedIndirect => MemRead16(bus, s.core.mem, OperandByte(bus, s) + s.core.x)
    case IndirectIndexed => ToWord(MemRead16(bus, s.core.mem, OperandByte(bus, s)) + s.core.y)
  }

  /** The operand; an address equal to INVALID_ADDRESS is taken to be "no address". */
  function Operand(bus: Bus, s: State, mode: AddrMode): byte {
    var addr := Addr(bus, s, mode);
    if addr != INVALID_ADDRESS then MemRead(bus, s.core.mem, addr)
    else if mode == Accumulator then s.core.a
    else 0
  }

  function Shift(bus: Bus, s: State, mode: AddrMode, left: bool, fill: bool): Core {
    var addr := Addr(bus, s, mode);
    if addr != INVALID_ADDRESS then ShiftMem(bus, s.core, addr, left, fill)
    else ShiftAcc(s.core, left, fill)
  }

  // ---------- instructions ----------

  function Load(bus: Bus, s: State, m: AddrMode, r: Reg): Core {
    LoadReg(s.core, r, MemRead(bus, s.core.mem, Addr(bus, s, m)))
  }

  function Store(bus: Bus, s: State, m: AddrMode, r: Reg): Core {
    StoreReg(bus, s.core, Addr(bus, s, m), r)
  }

  function Transfer(c: Core, op: Mnemonic): Core {
    match op
    case TAX => LoadReg(c, RegX, c.a)
    case TAY => LoadReg(c, RegY, c.a)
    case TXA => LoadReg(c, RegA, c.x)
    case TYA => LoadReg(c, RegA, c.y)
    case TSX => LoadReg(c, RegX, c.sp)
    case TXS => LoadReg(c, RegSP, c.x)
    case INX => LoadReg(c, RegX, ToByte(c.x + 1))
    case INY => LoadReg(c, RegY, ToByte(c.y + 1))
    case DEX => LoadReg(c, RegX, ToByte(c.x - 1))
    case DEY => LoadReg(c, RegY, ToByte(c.y - 1))
    case _ => c
  }

  function StackOp(c: Core, pc: word, op: Mnemonic): Core {
    match op
    case PHA => Push(c, c.a)
    case PHP => Push(c, Pack(c.p))
    case PLA => PullReg(c, RegA)
    case PLP => PullReg(c, RegP)
    case JSR => Push16(c, ToWord(pc + 2))
    case RTS => Popped(Popped(c))
    case _ => c
  }

  function Alu(c: Core, op: Mnemonic, v: byte): Core {
    match op
    case AND => And(c, v)
    case EOR => ExclusiveOr(c, v)
    case ORA => InclusiveOr(c, v)
    case BIT => BitTest(c)
    case ADC => Add(c, v)
    case SBC => Subtract(c, v)
    case CMP => Compare(c, RegA, v)
    case CPX => Compare(c, RegX, v)
    case CPY => Compare(c, RegY, v)
    case _ => c
  }

  function FlagOp(p: Flags, op: Mnemonic): Flags {
    match op
    case CLC => p.(c := false)
    case CLD => p.(d := false)
    case CLI => p.(i := false)
    case CLV => p.(v := false)
    case SEC => p.(c := true)
    case SED => p.(d := true)
    case SEI => p.(i := true)
    case _ => p
  }

  function Modify(bus: Bus, s: State, op: Mnemonic, m: AddrMode): Core {
    match op
    case INC => IncMem(bus, s.core, Addr(bus, s, m), 1)
    case DEC => IncMem(bus, s.core, Addr(bus, s, m), -1)
    case ASL => Shift(bus, s, m, true, false)
    case LSR => Shift(bus, s, m, false, false)
    case ROL => Shift(bus, s, m, true, s.core.p.c)
    case ROR => Shift(bus, s, m, false, s.core.p.c)
    case _ => s.core
  }

  /** The register that a load fills or a store writes out. */
  function RegOf(op: Mnemonic): Reg {
    match op
    case LDX | STX => RegX
    case LDY | STY => RegY
    case _ => RegA
  }

  /** What an instruction does to registers and memory. */
  function Effect(bus: Bus, s: State, op: Mnemonic, m: AddrMode): Core {
    match Kind(op)
    case Loading => Load(bus, s, m, RegOf(op))
    case Storing => Store(bus, s, m, RegOf(op))
    case Modifying => Modify(bus, s, op, m)
    case Transferring => Transfer(s.core, op)
    case Stacking | Calling => StackOp(s.core, s.pc, op)
    case Combining | Comparing => Alu(s.core, op, Operand(bus, s, m))
    case Flagging => s.core.(p := FlagOp(s.core.p, op))
    case Jumping | Idling => s.core
  }

  // The effect of the mnemonics of one kind.

  lemma TransferIs(bus: Bus, s: State, op: Mnemonic, m: AddrMode)
    requires Kind(op) == Transferring
    ensures Effect(bus, s, op, m) == Transfer(s.core, op)
  {
    hide Transfer, Load, Store, Modify, StackOp, Alu, Operand, FlagOp, RegOf;
  }

  lemma StackIs(bus: Bus, s: State, op: Mnemonic, m: AddrMode)
    requires Kind(op) == Stacking
    ensures Effect(bus, s, op, m) == StackOp(s.core, s.pc, op)
  {
    hide StackOp, Load, Store, Modify, Alu, Transfer, Operand, FlagOp, RegOf;
  }

  lemma ShiftIs(bus: Bus, s: State, op: Mnemonic, m: AddrMode)
    requires ShiftsLeft(op) || ShiftsRight(op)
    ensures Effect(bus, s, op, m) == Shift(bus, s, m, ShiftsLeft(op), Rotates(op) && s.core.p.c)
  {
    hide Shift, Load, Store, Transfer, StackOp, Alu, Operand, FlagOp, IncMem, RegOf;
  }

  lemma AluIs(bus: Bus, s: State, op: Mnemonic, m: AddrMode)
    requires Kind(op) == Combining || Kind(op) == Comparing
    ensures Effect(bus, s, op, m) == Alu(s.core, op, Operand(bus, s, m))
  {
    hide Alu, Load, Store, Modify, StackOp, Transfer, Operand, FlagOp, RegOf;
  }

  /** Whether a jump or conditional branch is taken. */
  predicate Taken(p: Flags, op: Mnemonic) {
    match op
    case JMP | JSR | RTS | BRK => true
    case BCC => !p.c
    case BCS => p.c
    case BEQ => p.z
    case BMI => p.n
    case BNE => !p.z
    case BPL => !p.n
    case BVC => !p.v
    case BVS => p.v
    case _ => false
  }

  /** Where a taken branch goes; JSR reads its operand after it has pushed the return address. */
  function Target(bus: Bus, s: State, op: Mnemonic, m: AddrMode): word {
    match op
    case RTS => ToWord(Top16(s.core) + 1)
    case BRK => MemRead16(bus, s.core.mem, BREAK_VECTOR)
    case JSR => Addr(bus, s.(core := Push16(s.core, ToWord(s.pc + 2))), m)
    case _ => Addr(bus, s, m)
  }

  function Exec(bus: Bus, s: State, op: Mnemonic, m: AddrMode): State {
    s.(core := Effect(bus, s, op, m),
       branched := if Taken(s.core.p, op) then Target(bus, s, op, m) else s.branched)
  }

  // ---------- fetch, step, run ----------

  function CurrentOpcode(bus: Bus, mem: Memory, pc: word): Opcode { Decode(MemRead(bus, mem, pc)) }

  function LengthAt(bus: Bus, mem: Memory, pc: word): int { Length(CurrentOpcode(bus, mem, pc).mode) }

  /** The address of the next instruction: the pending branch, or past the opcode byte now at pc. */
  function NextPc(bus: Bus, s: State): word {
    if s.branched != INVALID_ADDRESS then s.branched
    else ToWord(s.pc + LengthAt(bus, s.core.mem, s.pc))
  }

  /** Fetch: consume the pending branch; a next address in the reserved area fails an assertion. */
  function Fetch(bus: Bus, s: State): Outcome<State> {
    if NextPc(bus, s) < RESERVED_START
    then Running(s.(pc := NextPc(bus, s), branched := INVALID_ADDRESS))
    else Aborted
  }

  function ExecCurrent(bus: Bus, s: State): State {
    var opcode := CurrentOpcode(bus, s.core.mem, s.pc);
    Exec(bus, s, opcode.name, opcode.mode)
  }

  function Step(bus: Bus, s: State): Outcome<State> {
    match Fetch(bus, s)
    case Running(s') => Running(ExecCurrent(bus, s'))
    case Aborted => Aborted
  }

  function Run(bus: Bus, s: State, n: nat): Outcome<State>
    decreases n
  {
    if n == 0 then Running(s)
    else match Step(bus, s)
      case Running(s') => Run(bus, s', n - 1)
      case Aborted => Aborted
  }

  /** The instruction the next step executes. */
  function NextOpcode(bus: Bus, s: State): Opcode {
    CurrentOpcode(bus, s.core.mem, NextPc(bus, s))
  }

  lemma StepIsExec(bus: Bus, s: State)
    ensures var here := State(NextPc(bus, s), INVALID_ADDRESS, s.core);
            var opcode := NextOpcode(bus, s);
            Step(bus, s) == if here.pc < RESERVED_START then Running(Exec(bus, here, opcode.name, opcode.mode))
                            else Aborted
  {
    hide Exec, CurrentOpcode, NextPc;
  }

  lemma OneStep(bus: Bus, s: State)
    ensures Run(bus, s, 1) == Step(bus, s)
  {
    hide Step;
    assert Step(bus, s).Running? ==> Run(bus, Step(bus, s).state, 0) == Step(bus, s);
  }

  lemma {:induction false} RunSplit(bus: Bus, s: State, m: nat, n: nat)
    decreases m
    ensures Run(bus, s, m + n) ==
            match Run(bus, s, m) { case Running(s') => Run(bus, s', n) case Aborted => Aborted }
  {
    hide Step;
    if m > 0 {
      match Step(bus, s) {
        case Running(s') => RunSplit(bus, s', m - 1, n);
        case Aborted =>
      }
    }
  }
}
