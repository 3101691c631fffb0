/** The way back through the opcode table: a documented mnemonic and mode have one opcode byte. */
module Assembler {
  import opened Bytes
  import opened Opcodes

  function AssembleLDA(mode: AddrMode): Option<byte> {
    match mode
    case IndexedIndirect => Some(0xA1)   case ZeroPage => Some(0xA5)
    case Immediate => Some(0xA9)         case Absolute => Some(0xAD)
    case IndirectIndexed => Some(0xB1)   case ZeroPageX => Some(0xB5)
    case AbsoluteY => Some(0xB9)         case AbsoluteX => Some(0xBD)
    case _ => None
  }

  function AssembleLDX(mode: AddrMode): Option<byte> {
    match mode
    case Immediate => Some(0xA2)         case ZeroPage => Some(0xA6)
    case Absolute => Some(0xAE)          case ZeroPageY => Some(0xB6)
    case AbsoluteY => Some(0xBE)
    case _ => None
  }

  function AssembleLDY(mode: AddrMode): Option<byte> {
    match mode
    case Immediate => Some(0xA0)         case ZeroPage => Some(0xA4)
    case Absolute => Some(0xAC)          case ZeroPageX => Some(0xB4)
    case AbsoluteX => Some(0xBC)
    case _ => None
  }

  function AssembleSTA(mode: AddrMode): Option<byte> {
    match mode
    case IndexedIndirect => Some(0x81)   case ZeroPage => Some(0x85)
    case Absolute => Some(0x8D)          case IndirectIndexed => Some(0x91)
    case ZeroPageX => Some(0x95)         case AbsoluteY => Some(0x99)
    case AbsoluteX => Some(0x9D)
    case _ => None
  }

  function AssembleSTX(mode: AddrMode): Option<byte> {
    match mode
    case ZeroPage => Some(0x86)          case Absolute => Some(0x8E)
    case ZeroPageY => Some(0x96)
    case _ => None
  }

  function AssembleSTY(mode: AddrMode): Option<byte> {
    match mode
    case ZeroPage => Some(0x84)          case AbsoluteX => Some(0x8C)
    case ZeroPageY => Some(0x94)
    case _ => None
  }

  function AssembleAND(mode: AddrMode): Option<byte> {
    match mode
    case IndexedIndirect => Some(0x21)   case ZeroPage => Some(0x25)
    case Immediate => Some(0x29)         case Absolute => Some(0x2D)
    case IndirectIndexed => Some(0x31)   case ZeroPageX => Some(0x35)
    case AbsoluteY => Some(0x39)         case AbsoluteX => Some(0x3D)
    case _ => None
  }

  function AssembleEOR(mode: AddrMode): Option<byte> {
    match mode
    case IndexedIndirect => Some(0x41)   case ZeroPage => Some(0x45)
    case Immediate => Some(0x49)         case Absolute => Some(0x4D)
    case IndirectIndexed => Some(0x51)   case ZeroPageX => Some(0x55)
    case AbsoluteY => Some(0x59)         case AbsoluteX => Some(0x5D)
    case _ => None
  }

  function AssembleORA(mode: AddrMode): Option<byte> {
    match mode
    case IndexedIndirect => Some(0x01)   case ZeroPage => Some(0x05)
    case Immediate => Some(0x09)         case Absolute => Some(0x0D)
    case IndirectIndexed => Some(0x11)   case ZeroPageX => Some(0x15)
    case AbsoluteY => Some(0x19)         case AbsoluteX => Some(0x1D)
    case _ => None
  }

  function AssembleBIT(mode: AddrMode): Option<byte> {
    match mode
    case ZeroPage => Some(0x24)          case Absolute => Some(0x2C)
    case _ => None
  }

  function AssembleADC(mode: AddrMode): Option<byte> {
    match mode
    case IndexedIndirect => Some(0x61)   case ZeroPage => Some(0x65)
    case Immediate => Some(0x69)         case Absolute => Some(0x6D)
    case IndirectIndexed => Some(0x71)   case ZeroPageX => Some(0x75)
    case AbsoluteY => Some(0x79)         case AbsoluteX => Some(0x7D)
    case _ => None
  }

  function AssembleSBC(mode: AddrMode): Option<byte> {
    match mode
    case IndexedIndirect => Some(0xE1)   case ZeroPage => Some(0xE5)
    case Immediate => Some(0xE9)         case Absolute => Some(0xED)
    case IndirectIndexed => Some(0xF1)   case ZeroPageX => Some(0xF5)
    case AbsoluteY => Some(0xF9)         case AbsoluteX => Some(0xFD)
    case _ => None
  }

  function AssembleCMP(mode: AddrMode): Option<byte> {
    match mode
    case IndexedIndirect => Some(0xC1)   case ZeroPage => Some(0xC5)
    case Immediate => Some(0xC9)         case Absolute => Some(0xCD)
    case IndirectIndexed => Some(0xD1)   case ZeroPageX => Some(0xD5)
    case AbsoluteY => Some(0xD9)         case AbsoluteX => Some(0xDD)
    case _ => None
  }

  function AssembleCPX(mode: AddrMode): Option<byte> {
    match mode
    case Immediate => Some(0xE0)         case ZeroPage => Some(0xE4)
    case Absolute => Some(0xEC)
    case _ => None
  }

  function AssembleCPY(mode: AddrMode): Option<byte> {
    match mode
    case Immediate => Some(0xC0)         case ZeroPage => Some(0xC4)
    case Absolute => Some(0xCC)
    case _ => None
  }

  function AssembleINC(mode: AddrMode): Option<byte> {
    match mode
    case ZeroPage => Some(0xE6)          case Absolute => Some(0xEE)
    case ZeroPageX => Some(0xF6)         case AbsoluteX => Some(0xFE)
    case _ => None
  }

  function AssembleDEC(mode: AddrMode): Option<byte> {
    match mode
    case ZeroPage => Some(0xC6)          case Absolute => Some(0xCE)
    case ZeroPageX => Some(0xD6)         case AbsoluteX => Some(0xDE)
    case _ => None
  }

  function AssembleASL(mode: AddrMode): Option<byte> {
    match mode
    case ZeroPage => Some(0x06)          case Accumulator => Some(0x0A)
    case Absolute => Some(0x0E)          case ZeroPageX => Some(0x16)
    case AbsoluteX => Some(0x1E)
    case _ => None
  }

  function AssembleLSR(mode: AddrMode): Option<byte> {
    match mode
    case ZeroPage => Some(0x46)          case Accumulator => Some(0x4A)
    case Absolute => Some(0x4E)          case ZeroPageX => Some(0x56)
    case AbsoluteX => Some(0x5E)
    case _ => None
  }

  function AssembleROL(mode: AddrMode): Option<byte> {
    match mode
    case ZeroPage => Some(0x26)          case Accumulator => Some(0x2A)
    case Absolute => Some(0x2E)          case ZeroPageX => Some(0x36)
    case AbsoluteX => Some(0x3E)
    case _ => None
  }

  function AssembleROR(mode: AddrMode): Option<byte> {
    match mode
    case ZeroPage => Some(0x66)          case Accumulator => Some(0x6A)
    case Absolute => Some(0x6E)          case ZeroPageX => Some(0x76)
    case AbsoluteX => Some(0x7E)
    case _ => None
  }

  function AssembleJMP(mode: AddrMode): Option<byte> {
    match mode
    case Absolute => Some(0x4C)          case Indirect => Some(0x6C)
    case _ => None
  }

  /** The opcode byte of a documented mnemonic in a documented mode. */
  function Assemble(name: Mnemonic, mode: AddrMode): Option<byte> {
    match name
    case LDA => AssembleLDA(mode)
    case LDX => AssembleLDX(mode)
    case LDY => AssembleLDY(mode)
    case STA => AssembleSTA(mode)
    case STX => AssembleSTX(mode)
    case STY => AssembleSTY(mode)
    case TAX => if mode == Implied then Some(0xAA) else None
    case TAY => if mode == Implied then Some(0xA8) else None
    case TXA => if mode == Implied then Some(0x8A) else None
    case TYA => if mode == Implied then Some(0x98) else None
    case TSX => if mode == Implied then Some(0xBA) else None
    case TXS => if mode == Implied then Some(0x9A) else None
    case PHA => if mode == Implied then Some(0x48) else None
    case PHP => if mode == Implied then Some(0x08) else None
    case PLA => if mode == Implied then Some(0x68) else None
    case PLP => if mode == Implied then Some(0x28) else None
    case AND => AssembleAND(mode)
    case EOR => AssembleEOR(mode)
    case ORA => AssembleORA(mode)
    case BIT => AssembleBIT(mode)
    case ADC => AssembleADC(mode)
    case SBC => AssembleSBC(mode)
    case CMP => AssembleCMP(mode)
    case CPX => AssembleCPX(mode)
    case CPY => AssembleCPY(mode)
    case INC => AssembleINC(mode)
    case INX => if mode == Implied then Some(0xE8) else None
    case INY => if mode == Implied then Some(0xC8) else None
    case DEC => AssembleDEC(mode)
    case DEX => if mode == Implied then Some(0xCA) else None
    case DEY => if mode == Implied then Some(0x88) else None
    case ASL => AssembleASL(mode)
    case LSR => AssembleLSR(mode)
    case ROL => AssembleROL(mode)
    case ROR => AssembleROR(mode)
    case JMP => AssembleJMP(mode)
    case JSR => if mode == Absolute then Some(0x20) else None
    case RTS => if mode == Implied then Some(0x60) else None
    case BCC => if mode == Relative then Some(0x90) else None
    case BCS => if mode == Relative then Some(0xB0) else None
    case BEQ => if mode == Relative then Some(0xF0) else None
    case BMI => if mode == Relative then Some(0x30) else None
    case BNE => if mode == Relative then Some(0xD0) else None
    case BPL => if mode == Relative then Some(0x10) else None
    case BVC => if mode == Relative then Some(0x50) else None
    case BVS => if mode == Relative then Some(0x70) else None
    case CLC => if mode == Implied then Some(0x18) else None
    case CLD => if mode == Implied then Some(0xD8) else None
    case CLI => if mode == Implied then Some(0x58) else None
    case CLV => if mode == Implied then Some(0xB8) else None
    case SEC => if mode == Implied then Some(0x38) else None
    case SED => if mode == Implied then Some(0xF8) else None
    case SEI => if mode == Implied then Some(0x78) else None
    case BRK => if mode == Implied then Some(0x00) else None
    case NOP => if mode == Implied then Some(0xEA) else None
    case RTI => if mode == Implied then Some(0x40) else None
    case XXX => None
  }

  lemma AssembleRow0(low: int)
    requires 0 <= low < 0x10 && Row0(low).name != XXX
    ensures Assemble(Row0(low).name, Row0(low).mode) == Some(0x00 + low)
  {
  }

  lemma AssembleRow1(low: int)
    requires 0 <= low < 0x10 && Row1(low).name != XXX
    ensures Assemble(Row1(low).name, Row1(low).mode) == Some(0x10 + low)
  {
  }

  lemma AssembleRow2(low: int)
    requires 0 <= low < 0x10 && Row2(low).name != XXX
    ensures Assemble(Row2(low).name, Row2(low).mode) == Some(0x20 + low)
  {
  }

  lemma AssembleRow3(low: int)
    requires 0 <= low < 0x10 && Row3(low).name != XXX
    ensures Assemble(Row3(low).name, Row3(low).mode) == Some(0x30 + low)
  {
  }

  lemma AssembleRow4(low: int)
    requires 0 <= low < 0x10 && Row4(low).name != XXX
    ensures Assemble(Row4(low).name, Row4(low).mode) == Some(0x40 + low)
  {
  }

  lemma AssembleRow5(low: int)
    requires 0 <= low < 0x10 && Row5(low).name != XXX
    ensures Assemble(Row5(low).name, Row5(low).mode) == Some(0x50 + low)
  {
  }

  lemma AssembleRow6(low: int)
    requires 0 <= low < 0x10 && Row6(low).name != XXX
    ensures Assemble(Row6(low).name, Row6(low).mode) == Some(0x60 + low)
  {
  }

  lemma AssembleRow7(low: int)
    requires 0 <= low < 0x10 && Row7(low).name != XXX
    ensures Assemble(Row7(low).name, Row7(low).mode) == Some(0x70 + low)
  {
  }

  lemma AssembleRow8(low: int)
    requires 0 <= low < 0x10 && Row8(low).name != XXX
    ensures Assemble(Row8(low).name, Row8(low).mode) == Some(0x80 + low)
  {
  }

  lemma AssembleRow9(low: int)
    requires 0 <= low < 0x10 && Row9(low).name != XXX
    ensures Assemble(Row9(low).name, Row9(low).mode) == Some(0x90 + low)
  {
  }

  lemma AssembleRowA(low: int)
    requires 0 <= low < 0x10 && RowA(low).name != XXX
    ensures Assemble(RowA(low).name, RowA(low).mode) == Some(0xA0 + low)
  {
  }

  lemma AssembleRowB(low: int)
    requires 0 <= low < 0x10 && RowB(low).name != XXX
    ensures Assemble(RowB(low).name, RowB(low).mode) == Some(0xB0 + low)
  {
  }

  lemma AssembleRowC(low: int)
    requires 0 <= low < 0x10 && RowC(low).name != XXX
    ensures Assemble(RowC(low).name, RowC(low).mode) == Some(0xC0 + low)
  {
  }

  lemma AssembleRowD(low: int)
    requires 0 <= low < 0x10 && RowD(low).name != XXX
    ensures Assemble(RowD(low).name, RowD(low).mode) == Some(0xD0 + low)
  {
  }

  lemma AssembleRowE(low: int)
    requires 0 <= low < 0x10 && RowE(low).name != XXX
    ensures Assemble(RowE(low).name, RowE(low).mode) == Some(0xE0 + low)
  {
  }

  lemma AssembleRowF(low: int)
    requires 0 <= low < 0x10 && RowF(low).name != XXX
    ensures Assemble(RowF(low).name, RowF(low).mode) == Some(0xF0 + low)
  {
  }

  /** Assembling what a documented opcode byte decodes to gives the byte back. */
  lemma AssembleDecode(b: byte)
    requires Decode(b).name != XXX
    ensures Assemble(Decode(b).name, Decode(b).mode) == Some(b)
  {
    hide Assemble, Row0, Row1, Row2, Row3, Row4, Row5, Row6, Row7, Row8, Row9, RowA, RowB, RowC, RowD, RowE, RowF;
    var low := b % 0x10;
    match b / 0x10 {
      case 0x0 => AssembleRow0(low);
      case 0x1 => AssembleRow1(low);
      case 0x2 => AssembleRow2(low);
      case 0x3 => AssembleRow3(low);
      case 0x4 => AssembleRow4(low);
      case 0x5 => AssembleRow5(low);
      case 0x6 => AssembleRow6(low);
      case 0x7 => AssembleRow7(low);
      case 0x8 => AssembleRow8(low);
      case 0x9 => AssembleRow9(low);
      case 0xA => AssembleRowA(low);
      case 0xB => AssembleRowB(low);
      case 0xC => AssembleRowC(low);
      case 0xD => AssembleRowD(low);
      case 0xE => AssembleRowE(low);
      case _ => AssembleRowF(low);
    }
  }

  /** So two documented opcode bytes with one mnemonic and one mode are the same byte. */
  lemma DecodeInjective(b: byte, b': byte)
    requires Decode(b).name != XXX && Decode(b) == Decode(b')
    ensures b == b'
  {
    hide Decode, Assemble;
    AssembleDecode(b);
    AssembleDecode(b');
  }
}
