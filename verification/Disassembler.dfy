/** The disassembler's line of text: how it is printed, and how everything in it can be read back. */
module Disassembler {
  import opened Bytes
  import opened Opcodes
  import opened Machine
  import opened StatusRegister
  import Assembler

  // What is collected after a step; a parameter byte the instruction does not have is 0.
  datatype StepInfo = StepInfo(pc: word, name: Mnemonic, mode: AddrMode, par1: byte, par2: byte, regs: Registers)

  type Registers = r: seq<byte> | |r| == 5 witness [0, 0, 0, 0, 0]

  predicate Collected(info: StepInfo) {
    && (Length(info.mode) < 2 ==> info.par1 == 0)
    && (Length(info.mode) < 3 ==> info.par2 == 0)
  }

  function CollectStepInfo(bus: Bus, s: State): (info: StepInfo)
    ensures Collected(info)
  {
    var opcode := CurrentOpcode(bus, s.core.mem, s.pc);
    var len := Length(opcode.mode);
    StepInfo(s.pc, opcode.name, opcode.mode,
             if len > 1 then MemRead(bus, s.core.mem, ToWord(s.pc + 1)) else 0,
             if len > 2 then MemRead(bus, s.core.mem, ToWord(s.pc + 2)) else 0,
             [s.core.sp, s.core.a, s.core.x, s.core.y, Pack(s.core.p)])
  }

  // ---------- formats ----------

  function HexDigit(n: int): char
    requires 0 <= n < 16
  {
    if n < 10 then '0' + n as char else 'A' + (n - 10) as char
  }

  function Hex2(b: byte): (s: string)
    ensures |s| == 2
  {
    [HexDigit(b / 0x10), HexDigit(b % 0x10)]
  }

  function Hex4(w: word): (s: string)
    ensures |s| == 4
  {
    Hex2(w / 0x100) + Hex2(w % 0x100)
  }

  function Digit(n: int): char
    requires 0 <= n < 10
  {
    '0' + n as char
  }

  /** A number below 1000 in decimal, without leading zeros. */
  function Decimal(n: int): (s: string)
    requires 0 <= n < 1000
    ensures 1 <= |s| <= 3
  {
    if n < 10 then [Digit(n)]
    else if n < 100 then [Digit(n / 10), Digit(n % 10)]
    else [Digit(n / 100), Digit(n / 10 % 10), Digit(n % 10)]
  }

  function Signed10(b: byte): (s: string)
    ensures 2 <= |s| <= 4
  {
    if Signed(b) < 0 then "-" + Decimal(-Signed(b)) else "+" + Decimal(Signed(b))
  }

  function Spell(name: Mnemonic): (s: string)
    ensures |s| == 3
  {
    match name
    case LDA => "LDA" case LDX => "LDX" case LDY => "LDY" case STA => "STA"
    case STX => "STX" case STY => "STY" case TAX => "TAX" case TAY => "TAY"
    case TXA => "TXA" case TYA => "TYA" case TSX => "TSX" case TXS => "TXS"
    case PHA => "PHA" case PHP => "PHP" case PLA => "PLA" case PLP => "PLP"
    case AND => "AND" case EOR => "EOR" case ORA => "ORA" case BIT => "BIT"
    case ADC => "ADC" case SBC => "SBC" case CMP => "CMP" case CPX => "CPX"
    case CPY => "CPY" case INC => "INC" case INX => "INX" case INY => "INY"
    case DEC => "DEC" case DEX => "DEX" case DEY => "DEY" case ASL => "ASL"
    case LSR => "LSR" case ROL => "ROL" case ROR => "ROR" case JMP => "JMP"
    case JSR => "JSR" case RTS => "RTS" case BCC => "BCC" case BCS => "BCS"
    case BEQ => "BEQ" case BMI => "BMI" case BNE => "BNE" case BPL => "BPL"
    case BVC => "BVC" case BVS => "BVS" case CLC => "CLC" case CLD => "CLD"
    case CLI => "CLI" case CLV => "CLV" case SEC => "SEC" case SED => "SED"
    case SEI => "SEI" case BRK => "BRK" case NOP => "NOP" case RTI => "RTI"
    case XXX => "XXX"
  }

  /** The operand column, by addressing mode. */
  function OperandText(mode: AddrMode, par1: byte, par2: byte): (s: string)
    ensures |s| <= 8
  {
    match mode
    case Implied => ""
    case Accumulator => " A"
    case Immediate => " #" + Hex2(par1)
    case ZeroPage => " $" + Hex2(par1)
    case ZeroPageX => " $" + Hex2(par1) + ",X"
    case ZeroPageY => " $" + Hex2(par1) + ",Y"
    case Relative => " *" + Signed10(par1)
    case IndexedIndirect => " ($" + Hex2(par1) + ",X)"
    case IndirectIndexed => " ($" + Hex2(par1) + "),Y"
    case Absolute => " " + Hex4(MakeWord(par2, par1))
    case AbsoluteX => " " + Hex4(MakeWord(par2, par1)) + ",X"
    case AbsoluteY => " " + Hex4(MakeWord(par2, par1)) + ",Y"
    case Indirect => " (" + Hex4(MakeWord(par2, par1)) + ")"
  }

  function RegText(b: byte): (s: string)
    ensures |s| == 5
  {
    if b != 0 then " [" + Hex2(b) + "]" else " [  ]"
  }

  function RegsText(regs: seq<byte>): (s: string)
    ensures |s| == 5 * |regs|
  {
    if regs == [] then "" else RegsText(regs[..|regs| - 1]) + RegText(regs[|regs| - 1])
  }

  function Spaces(n: nat): (s: string)
    ensures |s| == n && forall i :: 0 <= i < n ==> s[i] == ' '
  {
    seq(n, i => ' ')
  }

  function Head(info: StepInfo): (s: string)
    ensures |s| == 9
  {
    Hex4(info.pc) + ": " + Spell(info.name)
  }

  function Column(mode: AddrMode, par1: byte, par2: byte): (s: string)
    ensures |s| == 15
  {
    OperandText(mode, par1, par2) + Spaces(15 - |OperandText(mode, par1, par2)|)
  }

  /** The whole line: 49 characters, whatever the instruction. */
  function Line(info: StepInfo): (s: string)
    ensures |s| == 49
  {
    Head(info) + Column(info.mode, info.par1, info.par2) + RegsText(info.regs)
  }

  /** How each mode's operand is written. */
  lemma OperandTexts()
    ensures OperandText(Implied, 0, 0) == "" && OperandText(Accumulator, 0, 0) == " A"
    ensures OperandText(Immediate, 0x1F, 0) == " #1F" && OperandText(ZeroPage, 0x1F, 0) == " $1F"
    ensures OperandText(ZeroPageX, 0x1F, 0) == " $1F,X" && OperandText(ZeroPageY, 0x1F, 0) == " $1F,Y"
    ensures OperandText(Relative, 0x1F, 0) == " *+31" && OperandText(Relative, 0xFE, 0) == " *-2"
    ensures OperandText(IndexedIndirect, 0x1F, 0) == " ($1F,X)"
    ensures OperandText(IndirectIndexed, 0x1F, 0) == " ($1F),Y"
    ensures OperandText(Absolute, 0x34, 0x12) == " 1234" && OperandText(Indirect, 0x34, 0x12) == " (1234)"
    ensures OperandText(AbsoluteX, 0x34, 0x12) == " 1234,X" && OperandText(AbsoluteY, 0x34, 0x12) == " 1234,Y"
  {
  }

  lemma FiveRegs(a: byte, b: byte, c: byte, d: byte, e: byte)
    ensures RegsText([a, b, c, d, e]) == RegText(a) + RegText(b) + RegText(c) + RegText(d) + RegText(e)
  {
    hide RegText;
    assert [a, b, c, d, e][..4] == [a, b, c, d] && [a, b, c, d][..3] == [a, b, c];
    assert [a, b, c][..2] == [a, b] && [a, b][..1] == [a] && [a][..0] == [];
    assert RegsText([a, b]) == RegsText([a]) + RegText(b);
    assert RegsText([a, b, c]) == RegsText([a, b]) + RegText(c);
    assert RegsText([a, b, c, d]) == RegsText([a, b, c]) + RegText(d);
  }

  const EXAMPLE := StepInfo(0x200, LDA, Immediate, 0x1F, 0, [0xFD, 0x1F, 2, 0xC0, 0])

  lemma ExampleCollected(s: State)
    requires s.pc == 0x200 && s.core.mem[0x200] == 0xA9 && s.core.mem[0x201] == 0x1F
    requires s.core.sp == 0xFD && s.core.a == 0x1F && s.core.x == 2 && s.core.y == 0xC0 && Pack(s.core.p) == 0
    ensures CollectStepInfo(PLAIN_BUS, s) == EXAMPLE
  {
    assert Decode(0xA9) == Opcode(LDA, Immediate);
    hide Decode, Pack;
  }

  lemma ExampleHead()
    ensures Head(EXAMPLE) == "0200: LDA" && OperandText(Immediate, 0x1F, 0) == " #1F"
  {
  }

  lemma ExampleRegs()
    ensures RegsText([0xFD, 0x1F, 2, 0xC0, 0]) == " [FD] [1F] [02] [C0] [  ]"
  {
    FiveRegs(0xFD, 0x1F, 2, 0xC0, 0);
    hide RegsText;
  }

  /** LDA #$1F at 0x0200, and behind it SP, A, X, Y and a zero status byte in this order. */
  lemma LineExample(s: State)
    requires s.pc == 0x200 && s.core.mem[0x200] == 0xA9 && s.core.mem[0x201] == 0x1F
    requires s.core.sp == 0xFD && s.core.a == 0x1F && s.core.x == 2 && s.core.y == 0xC0 && Pack(s.core.p) == 0
    ensures Line(CollectStepInfo(PLAIN_BUS, s)) ==
            "0200: LDA" + " #1F           " + " [FD] [1F] [02] [C0] [  ]"
  {
    ExampleCollected(s);
    ExampleHead();
    ExampleRegs();
    hide Head, RegsText, OperandText, CollectStepInfo, Pack;
    assert " #1F" + Spaces(11) == " #1F           ";
  }

  // ---------- printing into the buffer ----------

  const NUL: char := '\0'

  /** What sprintf does to the buffer: the text, and a NUL behind it. */
  method Print(buf: array<char>, at: nat, text: string) returns (count: nat)
    requires at + |text| < buf.Length
    modifies buf
    ensures count == |text| && buf[at..at + count] == text && buf[at + count] == NUL
    ensures forall i :: 0 <= i < at || at + count < i < buf.Length ==> buf[i] == old(buf[i])
  {
    var i := 0;
    while i < |text|
      invariant 0 <= i <= |text|
      invariant forall k :: 0 <= k < i ==> buf[at + k] == text[k]
      invariant forall k :: 0 <= k < at || at + |text| < k < buf.Length ==> buf[k] == old(buf[k])
    {
      buf[at + i] := text[i];
      i := i + 1;
    }
    buf[at + i] := NUL;
    count := |text|;
    assert buf[at..at + count] == text;
  }

  /** Finds the end of the operand and puts a space over its NUL. */
  method CoverNul(buf: array<char>, ghost text: string)
    requires buf.Length == 128 && |text| <= 8
    requires buf[9..9 + |text|] == text && buf[9 + |text|] == NUL
    requires forall i :: 0 <= i < |text| ==> text[i] != NUL
    modifies buf
    ensures buf[9 + |text|] == ' '
    ensures forall i :: 0 <= i < 128 && i != 9 + |text| ==> buf[i] == old(buf[i])
  {
    var at := 9;
    while buf[at] != NUL
      invariant 9 <= at <= 9 + |text|
      decreases 9 + |text| - at
    {
      at := at + 1;
    }
    buf[at] := ' ';
  }

  /** The printer itself; parameters is the number of operand bytes that was collected. */
  method DisassembleOpcode(info: StepInfo, parameters: int, buf: array<char>)
    requires buf.Length == 128 && parameters == Length(info.mode) - 1
    modifies buf
    ensures buf[..49] == Line(info) && buf[49] == NUL
  {
    hide Head, OperandText, RegsText, Length;
    for i := 0 to 24
      invariant forall k :: 0 <= k < i ==> buf[k] == ' '
    {
      buf[i] := ' ';
    }
    var _ := Print(buf, 0, Head(info));
    assert buf[..9] == Head(info);
    ghost var operand := OperandText(info.mode, info.par1, info.par2);
    PrintOperand(info, parameters, buf);
    NoNulInside(info.mode, info.par1, info.par2);
    CoverNul(buf, operand);
    assert buf[9..24] == Column(info.mode, info.par1, info.par2);
    PrintRegs(info.regs, buf);
  }

  lemma NoNulInside(mode: AddrMode, par1: byte, par2: byte)
    ensures forall i :: 0 <= i < |OperandText(mode, par1, par2)| ==> OperandText(mode, par1, par2)[i] != NUL
  {
  }

  /** The cases the printer asserts away cannot occur: the parameter count follows from the mode. */
  method PrintOperand(info: StepInfo, parameters: int, buf: array<char>)
    requires buf.Length == 128 && parameters == Length(info.mode) - 1 && buf[9] == NUL
    modifies buf
    ensures var text := OperandText(info.mode, info.par1, info.par2);
            && buf[9..9 + |text|] == text && buf[9 + |text|] == NUL
            && forall i :: 0 <= i < 9 || 9 + |text| < i < 128 ==> buf[i] == old(buf[i])
  {
    var byte1, byte2 := info.par1, info.par2;
    var wide := MakeWord(byte2, byte1);
    var text := "";
    if parameters == 0 {
      match info.mode {
        case Accumulator => text := " A";
        case Implied => return;
        case _ => assert false;
      }
    } else if parameters == 1 {
      match info.mode {
        case Immediate => text := " #" + Hex2(byte1);
        case ZeroPage => text := " $" + Hex2(byte1);
        case ZeroPageX => text := " $" + Hex2(byte1) + ",X";
        case ZeroPageY => text := " $" + Hex2(byte1) + ",Y";
        case Relative => text := " *" + Signed10(byte1);
        case IndexedIndirect => text := " ($" + Hex2(byte1) + ",X)";
        case IndirectIndexed => text := " ($" + Hex2(byte1) + "),Y";
        case _ => assert false;
      }
    } else {
      match info.mode {
        case Absolute => text := " " + Hex4(wide);
        case AbsoluteX => text := " " + Hex4(wide) + ",X";
        case AbsoluteY => text := " " + Hex4(wide) + ",Y";
        case Indirect => text := " (" + Hex4(wide) + ")";
        case _ => assert false;
      }
    }
    var _ := Print(buf, 9, text);
  }

  lemma NoRegs()
    ensures RegsText([]) == ""
  {
  }

  lemma RegsSnoc(regs: Registers, i: nat)
    requires i < 5
    ensures RegsText(regs[..i + 1]) == RegsText(regs[..i]) + RegText(regs[i])
  {
    hide RegText;
    assert regs[..i + 1][..i] == regs[..i];
  }

  method PrintRegs(regs: Registers, buf: array<char>)
    requires buf.Length == 128
    modifies buf
    ensures buf[24..49] == RegsText(regs) && buf[49] == NUL
    ensures forall i :: 0 <= i < 24 ==> buf[i] == old(buf[i])
  {
    hide RegText, RegsText;
    NoRegs();
    var at := 24;
    assert regs[..0] == [];
    for i := 0 to 5
      invariant at == 24 + 5 * i
      invariant buf[24..at] == RegsText(regs[..i])
      invariant forall k :: 0 <= k < 24 ==> buf[k] == old(buf[k])
    {
      ghost var before := buf[24..at];
      var count := Print(buf, at, RegText(regs[i]));
      assert buf[24..at] == before;
      RegsSnoc(regs, i);
      assert buf[24..at + count] == before + RegText(regs[i]);
      at := at + count;
    }
    assert regs[..5] == regs;
    buf[at] := NUL;
  }

  // ---------- reading the line back ----------

  function UnHex(c: char): int {
    if c <= '9' then c as int - '0' as int else c as int - 'A' as int + 10
  }

  function ReadHex(high: char, low: char): byte { ToByte(0x10 * UnHex(high) + UnHex(low)) }

  function UnDigit(c: char): int { c as int - '0' as int }

  function ReadMode(o: string): AddrMode
    requires |o| == 15
  {
    if o[1] == ' ' then Implied
    else if o[1] == 'A' && o[2] == ' ' then Accumulator
    else if o[1] == '#' then Immediate
    else if o[1] == '$' then
      if o[4] != ',' then ZeroPage else if o[5] == 'X' then ZeroPageX else ZeroPageY
    else if o[1] == '*' then Relative
    else if o[1] == '(' then
      if o[2] != '$' then Indirect else if o[5] == ',' then IndexedIndirect else IndirectIndexed
    else if o[5] != ',' then Absolute
    else if o[6] == 'X' then AbsoluteX else AbsoluteY
  }

  /** A sign and one to three decimal digits, up to the next space. */
  function ReadSigned(sign: char, d1: char, d2: char, d3: char): byte {
    var n := if d2 == ' ' then UnDigit(d1)
             else if d3 == ' ' then 10 * UnDigit(d1) + UnDigit(d2)
             else 100 * UnDigit(d1) + 10 * UnDigit(d2) + UnDigit(d3);
    ToByte(if sign == '-' then -n else n)
  }

  function ReadParameters(o: string): (byte, byte)
    requires |o| == 15
  {
    match ReadMode(o)
    case Implied | Accumulator => (0, 0)
    case Immediate | ZeroPage | ZeroPageX | ZeroPageY => (ReadHex(o[2], o[3]), 0)
    case IndexedIndirect | IndirectIndexed => (ReadHex(o[3], o[4]), 0)
    case Relative => (ReadSigned(o[2], o[3], o[4], o[5]), 0)
    case Absolute | AbsoluteX | AbsoluteY => (ReadHex(o[3], o[4]), ReadHex(o[1], o[2]))
    case Indirect => (ReadHex(o[4], o[5]), ReadHex(o[2], o[3]))
  }

  function ReadName(c0: char, c1: char, c2: char): Mnemonic {
    var rest := c1 as int * 0x100 + c2 as int;
    match c0
    case 'A' => ReadNameA(rest)
    case 'B' => ReadNameB(rest)
    case 'C' => ReadNameC(rest)
    case 'D' => ReadNameD(rest)
    case 'E' => ReadNameE(rest)
    case 'I' => ReadNameI(rest)
    case 'J' => ReadNameJ(rest)
    case 'L' => ReadNameL(rest)
    case 'N' => ReadNameN(rest)
    case 'O' => ReadNameO(rest)
    case 'P' => ReadNameP(rest)
    case 'R' => ReadNameR(rest)
    case 'S' => ReadNameS(rest)
    case 'T' => ReadNameT(rest)
    case _ => XXX
  }

  // The second and third letters, as one number.
  function ReadNameA(rest: int): Mnemonic {
    match rest
    case 0x4E44 => AND case 0x4443 => ADC case 0x534C => ASL
    case _ => XXX
  }

  function ReadNameB(rest: int): Mnemonic {
    match rest
    case 0x4954 => BIT case 0x4343 => BCC case 0x4353 => BCS case 0x4551 => BEQ case 0x4D49 => BMI
    case 0x4E45 => BNE case 0x504C => BPL case 0x5643 => BVC case 0x5653 => BVS case 0x524B => BRK
    case _ => XXX
  }

  function ReadNameC(rest: int): Mnemonic {
    match rest
    case 0x4D50 => CMP case 0x5058 => CPX case 0x5059 => CPY case 0x4C43 => CLC case 0x4C44 => CLD
    case 0x4C49 => CLI case 0x4C56 => CLV
    case _ => XXX
  }

  function ReadNameD(rest: int): Mnemonic {
    match rest
    case 0x4543 => DEC case 0x4558 => DEX case 0x4559 => DEY
    case _ => XXX
  }

  function ReadNameE(rest: int): Mnemonic {
    match rest
    case 0x4F52 => EOR
    case _ => XXX
  }

  function ReadNameI(rest: int): Mnemonic {
    match rest
    case 0x4E43 => INC case 0x4E58 => INX case 0x4E59 => INY
    case _ => XXX
  }

  function ReadNameJ(rest: int): Mnemonic {
    match rest
    case 0x4D50 => JMP case 0x5352 => JSR
    case _ => XXX
  }

  function ReadNameL(rest: int): Mnemonic {
    match rest
    case 0x4441 => LDA case 0x4458 => LDX case 0x4459 => LDY case 0x5352 => LSR
    case _ => XXX
  }

  function ReadNameN(rest: int): Mnemonic {
    match rest
    case 0x4F50 => NOP
    case _ => XXX
  }

  function ReadNameO(rest: int): Mnemonic {
    match rest
    case 0x5241 => ORA
    case _ => XXX
  }

  function ReadNameP(rest: int): Mnemonic {
    match rest
    case 0x4841 => PHA case 0x4850 => PHP case 0x4C41 => PLA case 0x4C50 => PLP
    case _ => XXX
  }

  function ReadNameR(rest: int): Mnemonic {
    match rest
    case 0x4F4C => ROL case 0x4F52 => ROR case 0x5453 => RTS case 0x5449 => RTI
    case _ => XXX
  }

  function ReadNameS(rest: int): Mnemonic {
    match rest
    case 0x5441 => STA case 0x5458 => STX case 0x5459 => STY case 0x4243 => SBC case 0x4543 => SEC
    case 0x4544 => SED case 0x4549 => SEI
    case _ => XXX
  }

  function ReadNameT(rest: int): Mnemonic {
    match rest
    case 0x4158 => TAX case 0x4159 => TAY case 0x5841 => TXA case 0x5941 => TYA case 0x5358 => TSX
    case 0x5853 => TXS
    case _ => XXX
  }

  function ReadReg(c2: char, c3: char): byte { if c2 == ' ' then 0 else ReadHex(c2, c3) }

  function ReadLine(s: string): StepInfo
    requires |s| == 49
  {
    var (par1, par2) := ReadParameters(s[9..24]);
    StepInfo(MakeWord(ReadHex(s[0], s[1]), ReadHex(s[2], s[3])), ReadName(s[6], s[7], s[8]),
             ReadMode(s[9..24]), par1, par2,
             [ReadReg(s[26], s[27]), ReadReg(s[31], s[32]), ReadReg(s[36], s[37]), ReadReg(s[41], s[42]),
              ReadReg(s[46], s[47])])
  }

  predicate IsHex(c: char) { '0' <= c <= '9' || 'A' <= c <= 'F' }

  lemma HexRoundTrip(b: byte)
    ensures ReadHex(Hex2(b)[0], Hex2(b)[1]) == b
    ensures IsHex(Hex2(b)[0]) && IsHex(Hex2(b)[1])
  {
  }

  predicate NameReads(name: Mnemonic) {
    ReadName(Spell(name)[0], Spell(name)[1], Spell(name)[2]) == name
  }

  lemma MovesRead(name: Mnemonic)
    requires Kind(name).Loading? || Kind(name).Storing? || Kind(name).Transferring? || Kind(name).Stacking?
    ensures NameReads(name)
  {
  }

  lemma OperationsRead(name: Mnemonic)
    requires Kind(name).Combining? || Kind(name).Comparing? || Kind(name).Modifying? || Kind(name).Flagging?
    ensures NameReads(name)
  {
  }

  lemma JumpsRead(name: Mnemonic)
    requires Kind(name).Jumping? || Kind(name).Calling? || Kind(name).Idling?
    ensures NameReads(name)
  {
  }

  lemma NameRoundTrip(name: Mnemonic)
    ensures NameReads(name)
  {
    hide NameReads;
    match Kind(name) {
      case Jumping => JumpsRead(name);
      case Calling => JumpsRead(name);
      case Idling => JumpsRead(name);
      case Loading => MovesRead(name);
      case Storing => MovesRead(name);
      case Transferring => MovesRead(name);
      case Stacking => MovesRead(name);
      case _ => OperationsRead(name);
    }
  }

  lemma DigitRoundTrip(n: int)
    requires 0 <= n < 10
    ensures UnDigit(Digit(n)) == n && Digit(n) != ' '
  {
  }

  lemma DecimalRoundTrip(n: int, sign: char, rest: string)
    requires 0 <= n < 1000 && |rest| >= 2 && rest[0] == ' ' && rest[1] == ' '
    ensures var s := Decimal(n) + rest;
            ReadSigned(sign, s[0], s[1], s[2]) == ToByte(if sign == '-' then -n else n)
  {
    hide Digit, UnDigit, ToByte;
    DigitRoundTrip(n % 10);
    DigitRoundTrip(n / 10 % 10);
    DigitRoundTrip(n / 100);
    assert n == 100 * (n / 100) + 10 * (n / 10 % 10) + n % 10;
  }

  lemma SignedRoundTrip(b: byte, rest: string)
    requires |rest| >= 2 && rest[0] == ' ' && rest[1] == ' '
    ensures var s := Signed10(b) + rest;
            ReadSigned(s[0], s[1], s[2], s[3]) == b
  {
    hide Decimal, ReadSigned;
    var n, sign := if Signed(b) < 0 then -Signed(b) else Signed(b), if Signed(b) < 0 then '-' else '+';
    DecimalRoundTrip(n, sign, rest);
    var s := Signed10(b) + rest;
    assert s[1..] == Decimal(n) + rest && s[0] == sign;
    assert s[1] == s[1..][0] && s[2] == s[1..][1] && s[3] == s[1..][2];
  }

  lemma ByteColumnRoundTrip(mode: AddrMode, par1: byte)
    requires mode == Immediate || mode == ZeroPage || mode == ZeroPageX || mode == ZeroPageY
          || mode == IndexedIndirect || mode == IndirectIndexed
    ensures ReadMode(Column(mode, par1, 0)) == mode
    ensures ReadParameters(Column(mode, par1, 0)) == (par1, 0)
  {
    hide Hex2, ReadHex;
    HexRoundTrip(par1);
  }

  lemma RelativeColumnRoundTrip(par1: byte)
    ensures ReadMode(Column(Relative, par1, 0)) == Relative
    ensures ReadParameters(Column(Relative, par1, 0)) == (par1, 0)
  {
    hide Signed10, ReadSigned;
    var rest := Spaces(15 - |OperandText(Relative, par1, 0)|);
    SignedRoundTrip(par1, rest);
    var o := Column(Relative, par1, 0);
    assert o[2..] == Signed10(par1) + rest;
    assert o[2] == o[2..][0] && o[3] == o[2..][1] && o[4] == o[2..][2] && o[5] == o[2..][3];
  }

  lemma WideRoundTrip(par1: byte, par2: byte)
    ensures Hex4(MakeWord(par2, par1)) == Hex2(par2) + Hex2(par1)
  {
    hide Hex2;
    assert MakeWord(par2, par1) / 0x100 == par2 && MakeWord(par2, par1) % 0x100 == par1;
  }

  lemma WideColumnRoundTrip(mode: AddrMode, par1: byte, par2: byte)
    requires Length(mode) == 3
    ensures ReadMode(Column(mode, par1, par2)) == mode
    ensures ReadParameters(Column(mode, par1, par2)) == (par1, par2)
  {
    hide Hex2, Hex4, ReadHex;
    WideRoundTrip(par1, par2);
    HexRoundTrip(par1);
    HexRoundTrip(par2);
  }

  /** The operand column tells the addressing mode and the operand bytes. */
  lemma ColumnRoundTrip(mode: AddrMode, par1: byte, par2: byte)
    requires (Length(mode) < 2 ==> par1 == 0) && (Length(mode) < 3 ==> par2 == 0)
    ensures ReadMode(Column(mode, par1, par2)) == mode
    ensures ReadParameters(Column(mode, par1, par2)) == (par1, par2)
  {
    if Length(mode) == 3 {
      WideColumnRoundTrip(mode, par1, par2);
    } else if mode == Relative {
      RelativeColumnRoundTrip(par1);
    } else if Length(mode) == 2 {
      ByteColumnRoundTrip(mode, par1);
    }
  }

  lemma RegRoundTrip(b: byte)
    ensures ReadReg(RegText(b)[2], RegText(b)[3]) == b
  {
    hide Hex2, ReadHex;
    HexRoundTrip(b);
    assert b == 0 ==> RegText(b)[2] == ' ';
    assert b != 0 ==> RegText(b)[2] == Hex2(b)[0] && RegText(b)[3] == Hex2(b)[1];
  }

  lemma {:induction false} RegsTextAt(regs: seq<byte>, i: nat)
    requires i < |regs|
    ensures RegsText(regs)[5 * i..5 * i + 5] == RegText(regs[i])
    decreases |regs|
  {
    hide RegText;
    var last := |regs| - 1;
    var text := RegsText(regs);
    assert text == RegsText(regs[..last]) + RegText(regs[last]);
    if i < last {
      RegsTextAt(regs[..last], i);
      assert text[5 * i..5 * i + 5] == RegsText(regs[..last])[5 * i..5 * i + 5];
    } else {
      assert text[5 * last..5 * last + 5] == RegText(regs[last]);
    }
  }

  lemma RegsRoundTrip(regs: Registers, s: string, i: nat)
    requires |s| == 49 && s[24..] == RegsText(regs) && i < 5
    ensures ReadReg(s[26 + 5 * i], s[27 + 5 * i]) == regs[i]
  {
    hide RegText, ReadReg;
    RegsTextAt(regs, i);
    RegRoundTrip(regs[i]);
    var at := 24 + 5 * i;
    assert s[24..][5 * i..5 * i + 5] == RegText(regs[i]);
    assert s[at + 2] == RegText(regs[i])[2] && s[at + 3] == RegText(regs[i])[3];
  }

  /** Nothing collected is lost in the line: reading it back gives the step information again. */
  lemma LineRoundTrip(info: StepInfo)
    requires Collected(info)
    ensures ReadLine(Line(info)) == info
  {
    hide Hex2, ReadHex, Spell, ReadName, ReadMode, ReadParameters, Column, RegsText, ReadReg;
    var s := Line(info);
    HexRoundTrip(info.pc / 0x100);
    HexRoundTrip(info.pc % 0x100);
    NameRoundTrip(info.name);
    assert s[9..24] == Column(info.mode, info.par1, info.par2);
    ColumnRoundTrip(info.mode, info.par1, info.par2);
    assert s[24..] == RegsText(info.regs);
    RegsRoundTrip(info.regs, s, 0);
    RegsRoundTrip(info.regs, s, 1);
    RegsRoundTrip(info.regs, s, 2);
    RegsRoundTrip(info.regs, s, 3);
    RegsRoundTrip(info.regs, s, 4);
  }

  /** Two lines are the same only for the same program counter, instruction, operands and registers. */
  lemma LineInjective(info: StepInfo, info': StepInfo)
    requires Collected(info) && Collected(info') && Line(info) == Line(info')
    ensures info == info'
  {
    hide Line, ReadLine;
    LineRoundTrip(info);
    LineRoundTrip(info');
  }

  /** For documented instructions the line even tells the opcode byte at the program counter. */
  lemma LineDeterminesOpcode(bus: Bus, s: State, bus': Bus, s': State)
    requires Line(CollectStepInfo(bus, s)) == Line(CollectStepInfo(bus', s'))
    requires CurrentOpcode(bus, s.core.mem, s.pc).name != XXX
    ensures MemRead(bus, s.core.mem, s.pc) == MemRead(bus', s'.core.mem, s'.pc)
  {
    hide Line, Decode, MemRead;
    LineInjective(CollectStepInfo(bus, s), CollectStepInfo(bus', s'));
    Assembler.DecodeInjective(MemRead(bus, s.core.mem, s.pc), MemRead(bus', s'.core.mem, s'.pc));
  }
}
