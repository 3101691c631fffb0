/** The opcode table: every opcode byte has a mnemonic and an addressing mode. */
module Opcodes {
  import opened Bytes

  // XXX is the name of every undocumented opcode; it executes as a NOP.
  datatype Mnemonic =
    | LDA | LDX | LDY | STA | STX | STY | TAX | TAY | TXA | TYA | TSX | TXS | PHA | PHP
    | PLA | PLP | AND | EOR | ORA | BIT | ADC | SBC | CMP | CPX | CPY | INC | INX | INY
    | DEC | DEX | DEY | ASL | LSR | ROL | ROR | JMP | JSR | RTS | BCC | BCS | BEQ | BMI
    | BNE | BPL | BVC | BVS | CLC | CLD | CLI | CLV | SEC | SED | SEI | BRK | NOP | RTI
    | XXX

  datatype AddrMode =
    | Implied | Accumulator | Immediate | ZeroPage | ZeroPageX | ZeroPageY | Relative
    | Absolute | AbsoluteX | AbsoluteY | Indirect | IndexedIndirect | IndirectIndexed

  // Instructions that share one primitive.
  datatype Class =
    | Loading | Storing | Modifying | Transferring | Stacking | Combining | Comparing | Flagging
    | Jumping | Calling | Idling

  function Kind(op: Mnemonic): Class {
    match op
    case LDA | LDX | LDY => Loading
    case STA | STX | STY => Storing
    case INC | DEC | ASL | LSR | ROL | ROR => Modifying
    case TAX | TAY | TXA | TYA | TSX | TXS | INX | INY | DEX | DEY => Transferring
    case PHA | PHP | PLA | PLP => Stacking
    case AND | EOR | ORA | BIT | ADC | SBC => Combining
    case CMP | CPX | CPY => Comparing
    case CLC | CLD | CLI | CLV | SEC | SED | SEI => Flagging
    case JMP | BCC | BCS | BEQ | BMI | BNE | BPL | BVC | BVS | BRK => Jumping
    case JSR | RTS => Calling
    case NOP | RTI | XXX => Idling
  }

  predicate ShiftsLeft(op: Mnemonic) { op == ASL || op == ROL }

  predicate ShiftsRight(op: Mnemonic) { op == LSR || op == ROR }

  predicate Rotates(op: Mnemonic) { op == ROL || op == ROR }

  datatype Opcode = Opcode(name: Mnemonic, mode: AddrMode)

  /** The table, one row of sixteen opcode bytes at a time. */
  function Decode(b: byte): Opcode {
    match b / 0x10
    case 0x0 => Row0(b % 0x10)
    case 0x1 => Row1(b % 0x10)
    case 0x2 => Row2(b % 0x10)
    case 0x3 => Row3(b % 0x10)
    case 0x4 => Row4(b % 0x10)
    case 0x5 => Row5(b % 0x10)
    case 0x6 => Row6(b % 0x10)
    case 0x7 => Row7(b % 0x10)
    case 0x8 => Row8(b % 0x10)
    case 0x9 => Row9(b % 0x10)
    case 0xA => RowA(b % 0x10)
    case 0xB => RowB(b % 0x10)
    case 0xC => RowC(b % 0x10)
    case 0xD => RowD(b % 0x10)
    case 0xE => RowE(b % 0x10)
    case _ => RowF(b % 0x10)
  }

  const UNKNOWN := Opcode(XXX, Implied)

  function Row0(low: int): Opcode {
    match low
    case 0x0 => Opcode(BRK, Implied)             case 0x1 => Opcode(ORA, IndexedIndirect)
    case 0x5 => Opcode(ORA, ZeroPage)            case 0x6 => Opcode(ASL, ZeroPage)
    case 0x8 => Opcode(PHP, Implied)             case 0x9 => Opcode(ORA, Immediate)
    case 0xA => Opcode(ASL, Accumulator)         case 0xD => Opcode(ORA, Absolute)
    case 0xE => Opcode(ASL, Absolute)
    case _ => UNKNOWN
  }

  function Row1(low: int): Opcode {
    match low
    case 0x0 => Opcode(BPL, Relative)            case 0x1 => Opcode(ORA, IndirectIndexed)
    case 0x5 => Opcode(ORA, ZeroPageX)           case 0x6 => Opcode(ASL, ZeroPageX)
    case 0x8 => Opcode(CLC, Implied)             case 0x9 => Opcode(ORA, AbsoluteY)
    case 0xD => Opcode(ORA, AbsoluteX)           case 0xE => Opcode(ASL, AbsoluteX)
    case _ => UNKNOWN
  }

  function Row2(low: int): Opcode {
    match low
    case 0x0 => Opcode(JSR, Absolute)            case 0x1 => Opcode(AND, IndexedIndirect)
    case 0x4 => Opcode(BIT, ZeroPage)            case 0x5 => Opcode(AND, ZeroPage)
    case 0x6 => Opcode(ROL, ZeroPage)            case 0x8 => Opcode(PLP, Implied)
    case 0x9 => Opcode(AND, Immediate)           case 0xA => Opcode(ROL, Accumulator)
    case 0xC => Opcode(BIT, Absolute)            case 0xD => Opcode(AND, Absolute)
    case 0xE => Opcode(ROL, Absolute)
    case _ => UNKNOWN
  }

  function Row3(low: int): Opcode {
    match low
    case 0x0 => Opcode(BMI, Relative)            case 0x1 => Opcode(AND, IndirectIndexed)
    case 0x5 => Opcode(AND, ZeroPageX)           case 0x6 => Opcode(ROL, ZeroPageX)
    case 0x8 => Opcode(SEC, Implied)             case 0x9 => Opcode(AND, AbsoluteY)
    case 0xD => Opcode(AND, AbsoluteX)           case 0xE => Opcode(ROL, AbsoluteX)
    case _ => UNKNOWN
  }

  function Row4(low: int): Opcode {
    match low
    case 0x0 => Opcode(RTI, Implied)             case 0x1 => Opcode(EOR, IndexedIndirect)
    case 0x5 => Opcode(EOR, ZeroPage)            case 0x6 => Opcode(LSR, ZeroPage)
    case 0x8 => Opcode(PHA, Implied)             case 0x9 => Opcode(EOR, Immediate)
    case 0xA => Opcode(LSR, Accumulator)         case 0xC => Opcode(JMP, Absolute)
    case 0xD => Opcode(EOR, Absolute)            case 0xE => Opcode(LSR, Absolute)
    case _ => UNKNOWN
  }

  function Row5(low: int): Opcode {
    match low
    case 0x0 => Opcode(BVC, Relative)            case 0x1 => Opcode(EOR, IndirectIndexed)
    case 0x5 => Opcode(EOR, ZeroPageX)           case 0x6 => Opcode(LSR, ZeroPageX)
    case 0x8 => Opcode(CLI, Implied)             case 0x9 => Opcode(EOR, AbsoluteY)
    case 0xD => Opcode(EOR, AbsoluteX)           case 0xE => Opcode(LSR, AbsoluteX)
    case _ => UNKNOWN
  }

  function Row6(low: int): Opcode {
    match low
    case 0x0 => Opcode(RTS, Implied)             case 0x1 => Opcode(ADC, IndexedIndirect)
    case 0x5 => Opcode(ADC, ZeroPage)            case 0x6 => Opcode(ROR, ZeroPage)
    case 0x8 => Opcode(PLA, Implied)             case 0x9 => Opcode(ADC, Immediate)
    case 0xA => Opcode(ROR, Accumulator)         case 0xC => Opcode(JMP, Indirect)
    case 0xD => Opcode(ADC, Absolute)            case 0xE => Opcode(ROR, Absolute)
    case _ => UNKNOWN
  }

  function Row7(low: int): Opcode {
    match low
    case 0x0 => Opcode(BVS, Relative)            case 0x1 => Opcode(ADC, IndirectIndexed)
    case 0x5 => Opcode(ADC, ZeroPageX)           case 0x6 => Opcode(ROR, ZeroPageX)
    case 0x8 => Opcode(SEI, Implied)             case 0x9 => Opcode(ADC, AbsoluteY)
    case 0xD => Opcode(ADC, AbsoluteX)           case 0xE => Opcode(ROR, AbsoluteX)
    case _ => UNKNOWN
  }

  function Row8(low: int): Opcode {
    match low
    case 0x1 => Opcode(STA, IndexedIndirect)     case 0x4 => Opcode(STY, ZeroPage)
    case 0x5 => Opcode(STA, ZeroPage)            case 0x6 => Opcode(STX, ZeroPage)
    case 0x8 => Opcode(DEY, Implied)             case 0xA => Opcode(TXA, Implied)
    case 0xC => Opcode(STY, AbsoluteX)           case 0xD => Opcode(STA, Absolute)
    case 0xE => Opcode(STX, Absolute)
    case _ => UNKNOWN
  }

  function Row9(low: int): Opcode {
    match low
    case 0x0 => Opcode(BCC, Relative)            case 0x1 => Opcode(STA, IndirectIndexed)
    case 0x4 => Opcode(STY, ZeroPageY)           case 0x5 => Opcode(STA, ZeroPageX)
    case 0x6 => Opcode(STX, ZeroPageY)           case 0x8 => Opcode(TYA, Implied)
    case 0x9 => Opcode(STA, AbsoluteY)           case 0xA => Opcode(TXS, Implied)
    case 0xD => Opcode(STA, AbsoluteX)
    case _ => UNKNOWN
  }

  function RowA(low: int): Opcode {
    match low
    case 0x0 => Opcode(LDY, Immediate)           case 0x1 => Opcode(LDA, IndexedIndirect)
    case 0x2 => Opcode(LDX, Immediate)           case 0x4 => Opcode(LDY, ZeroPage)
    case 0x5 => Opcode(LDA, ZeroPage)            case 0x6 => Opcode(LDX, ZeroPage)
    case 0x8 => Opcode(TAY, Implied)             case 0x9 => Opcode(LDA, Immediate)
    case 0xA => Opcode(TAX, Implied)             case 0xC => Opcode(LDY, Absolute)
    case 0xD => Opcode(LDA, Absolute)            case 0xE => Opcode(LDX, Absolute)
    case _ => UNKNOWN
  }

  function RowB(low: int): Opcode {
    match low
    case 0x0 => Opcode(BCS, Relative)            case 0x1 => Opcode(LDA, IndirectIndexed)
    case 0x4 => Opcode(LDY, ZeroPageX)           case 0x5 => Opcode(LDA, ZeroPageX)
    case 0x6 => Opcode(LDX, ZeroPageY)           case 0x8 => Opcode(CLV, Implied)
    case 0x9 => Opcode(LDA, AbsoluteY)           case 0xA => Opcode(TSX, Implied)
    case 0xC => Opcode(LDY, AbsoluteX)           case 0xD => Opcode(LDA, AbsoluteX)
    case 0xE => Opcode(LDX, AbsoluteY)
    case _ => UNKNOWN
  }

  function RowC(low: int): Opcode {
    match low
    case 0x0 => Opcode(CPY, Immediate)           case 0x1 => Opcode(CMP, IndexedIndirect)
    case 0x4 => Opcode(CPY, ZeroPage)            case 0x5 => Opcode(CMP, ZeroPage)
    case 0x6 => Opcode(DEC, ZeroPage)            case 0x8 => Opcode(INY, Implied)
    case 0x9 => Opcode(CMP, Immediate)           case 0xA => Opcode(DEX, Implied)
    case 0xC => Opcode(CPY, Absolute)            case 0xD => Opcode(CMP, Absolute)
    case 0xE => Opcode(DEC, Absolute)
    case _ => UNKNOWN
  }

  function RowD(low: int): Opcode {
    match low
    case 0x0 => Opcode(BNE, Relative)            case 0x1 => Opcode(CMP, IndirectIndexed)
    case 0x5 => Opcode(CMP, ZeroPageX)           case 0x6 => Opcode(DEC, ZeroPageX)
    case 0x8 => Opcode(CLD, Implied)             case 0x9 => Opcode(CMP, AbsoluteY)
    case 0xD => Opcode(CMP, AbsoluteX)           case 0xE => Opcode(DEC, AbsoluteX)
    case _ => UNKNOWN
  }

  function RowE(low: int): Opcode {
    match low
    case 0x0 => Opcode(CPX, Immediate)           case 0x1 => Opcode(SBC, IndexedIndirect)
    case 0x4 => Opcode(CPX, ZeroPage)            case 0x5 => Opcode(SBC, ZeroPage)
    case 0x6 => Opcode(INC, ZeroPage)            case 0x8 => Opcode(INX, Implied)
    case 0x9 => Opcode(SBC, Immediate)           case 0xA => Opcode(NOP, Implied)
    case 0xC => Opcode(CPX, Absolute)            case 0xD => Opcode(SBC, Absolute)
    case 0xE => Opcode(INC, Absolute)
    case _ => UNKNOWN
  }

  function RowF(low: int): Opcode {
    match low
    case 0x0 => Opcode(BEQ, Relative)            case 0x1 => Opcode(SBC, IndirectIndexed)
    case 0x5 => Opcode(SBC, ZeroPageX)           case 0x6 => Opcode(INC, ZeroPageX)
    case 0x8 => Opcode(SED, Implied)             case 0x9 => Opcode(SBC, AbsoluteY)
    case 0xD => Opcode(SBC, AbsoluteX)           case 0xE => Opcode(INC, AbsoluteX)
    case _ => UNKNOWN
  }

  /** Length in bytes of an instruction, opcode byte included. */
  function Length(mode: AddrMode): (len: int)
    ensures 1 <= len <= 3
  {
    match mode
    case Implied | Accumulator => 1
    case Absolute | AbsoluteX | AbsoluteY | Indirect => 3
    case _ => 2
  }
}
