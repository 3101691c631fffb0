/**
 * What each instruction means to a programmer, in plain numbers: which register or cell gets which value,
 * which bits of the status byte say what about it, which address is meant, and which branch is taken when.
 */
module InstructionFacts {
  import opened Bytes
  import opened Opcodes
  import opened Machine
  import opened StatusRegister

  // ---------- the status byte ----------

  /** The bits of the packed status byte, one by one. */
  lemma PackedBits(p: Flags)
    ensures TestBit(Pack(p), 0x01) == p.c && TestBit(Pack(p), 0x02) == p.z
    ensures TestBit(Pack(p), 0x04) == p.i && TestBit(Pack(p), 0x08) == p.d
    ensures TestBit(Pack(p), 0x10) == p.b && TestBit(Pack(p), 0x20) == p.u
    ensures TestBit(Pack(p), 0x40) == p.v && TestBit(Pack(p), 0x80) == p.n
  {
    hide Pack, TestBit;
    UnpackPack(p);
  }

  /** Bit 0x02 says that a result is zero, bit 0x80 that its top bit is set. */
  predicate Signs(p: Flags, result: byte) {
    && (TestBit(Pack(p), 0x02) <==> result == 0)
    && (TestBit(Pack(p), 0x80) <==> result >= 0x80)
  }

  lemma BasicSigns(p: Flags, result: byte)
    requires p.z == (result == 0) && p.n == (result >= 0x80)
    ensures Signs(p, result)
  {
    hide Pack, TestBit;
    PackedBits(p);
  }

  // One bit of the status byte as given, the others as before.
  ghost predicate OnlyBit(p: Flags, p': Flags, bit: bv8, on: bool) {
    forall g: bv8 :: SingleBit(g) ==> TestBit(Pack(p'), g) == if g == bit then on else TestBit(Pack(p), g)
  }

  // ---------- loads and stores ----------

  /** A load fills its own register with the byte read and changes nothing else but N and Z. */
  lemma LoadEffects(bus: Bus, s: State, m: AddrMode)
    ensures var c, v := s.core, MemRead(bus, s.core.mem, Addr(bus, s, m));
            var a, x, y := Effect(bus, s, LDA, m), Effect(bus, s, LDX, m), Effect(bus, s, LDY, m);
            && a == c.(a := v, p := a.p) && Signs(a.p, v)
            && x == c.(x := v, p := x.p) && Signs(x.p, v)
            && y == c.(y := v, p := y.p) && Signs(y.p, v)
  {
    hide MemRead, Addr, Pack, TestBit, Signs;
    var v := MemRead(bus, s.core.mem, Addr(bus, s, m));
    BasicSigns(Effect(bus, s, LDA, m).p, v);
    BasicSigns(Effect(bus, s, LDX, m).p, v);
    BasicSigns(Effect(bus, s, LDY, m).p, v);
  }

  /** A store writes its own register and changes nothing else. */
  lemma StoreEffects(bus: Bus, s: State, m: AddrMode)
    ensures var c, addr := s.core, Addr(bus, s, m);
            && Effect(bus, s, STA, m) == c.(mem := MemWrite(bus, c.mem, addr, c.a))
            && Effect(bus, s, STX, m) == c.(mem := MemWrite(bus, c.mem, addr, c.x))
            && Effect(bus, s, STY, m) == c.(mem := MemWrite(bus, c.mem, addr, c.y))
  {
    hide MemWrite, Addr, Pack;
  }

  // ---------- transfers and steps of a register ----------

  /** TAX, TAY and TSX fill an index register. */
  lemma TransfersToIndex(bus: Bus, s: State, m: AddrMode)
    ensures var c := s.core;
            var tax, tay, tsx := Effect(bus, s, TAX, m), Effect(bus, s, TAY, m), Effect(bus, s, TSX, m);
            && tax == c.(x := c.a, p := tax.p) && Signs(tax.p, c.a)
            && tay == c.(y := c.a, p := tay.p) && Signs(tay.p, c.a)
            && tsx == c.(x := c.sp, p := tsx.p) && Signs(tsx.p, c.sp)
  {
    hide Effect, Pack, TestBit, Signs, Unpack;
    TransferIs(bus, s, TAX, m);
    TransferIs(bus, s, TAY, m);
    TransferIs(bus, s, TSX, m);
    var c := s.core;
    BasicSigns(Effect(bus, s, TAX, m).p, c.a);
    BasicSigns(Effect(bus, s, TAY, m).p, c.a);
    BasicSigns(Effect(bus, s, TSX, m).p, c.sp);
  }

  /** TXA and TYA fill the accumulator; TXS fills SP and is the only transfer that leaves the status alone. */
  lemma TransfersFromIndex(bus: Bus, s: State, m: AddrMode)
    ensures var c := s.core;
            var txa, tya := Effect(bus, s, TXA, m), Effect(bus, s, TYA, m);
            && txa == c.(a := c.x, p := txa.p) && Signs(txa.p, c.x)
            && tya == c.(a := c.y, p := tya.p) && Signs(tya.p, c.y)
            && Effect(bus, s, TXS, m) == c.(sp := c.x)
  {
    hide Effect, Pack, TestBit, Signs, Unpack;
    TransferIs(bus, s, TXA, m);
    TransferIs(bus, s, TYA, m);
    TransferIs(bus, s, TXS, m);
    BasicSigns(Effect(bus, s, TXA, m).p, s.core.x);
    BasicSigns(Effect(bus, s, TYA, m).p, s.core.y);
  }

  function Up(v: byte): byte { if v == 0xFF then 0 else v + 1 }

  function Down(v: byte): byte { if v == 0 then 0xFF else v - 1 }

  /** INX and DEX step X by one, modulo 256. */
  lemma StepsOfX(bus: Bus, s: State, m: AddrMode)
    ensures var c, inx, dex := s.core, Effect(bus, s, INX, m), Effect(bus, s, DEX, m);
            && inx == c.(x := Up(c.x), p := inx.p) && Signs(inx.p, inx.x)
            && dex == c.(x := Down(c.x), p := dex.p) && Signs(dex.p, dex.x)
  {
    hide Effect, Pack, TestBit, Signs, Unpack;
    TransferIs(bus, s, INX, m);
    TransferIs(bus, s, DEX, m);
    BasicSigns(Effect(bus, s, INX, m).p, Up(s.core.x));
    BasicSigns(Effect(bus, s, DEX, m).p, Down(s.core.x));
  }

  /** INY and DEY step Y by one, modulo 256. */
  lemma StepsOfY(bus: Bus, s: State, m: AddrMode)
    ensures var c, iny, dey := s.core, Effect(bus, s, INY, m), Effect(bus, s, DEY, m);
            && iny == c.(y := Up(c.y), p := iny.p) && Signs(iny.p, iny.y)
            && dey == c.(y := Down(c.y), p := dey.p) && Signs(dey.p, dey.y)
  {
    hide Effect, Pack, TestBit, Signs, Unpack;
    TransferIs(bus, s, INY, m);
    TransferIs(bus, s, DEY, m);
    BasicSigns(Effect(bus, s, INY, m).p, Up(s.core.y));
    BasicSigns(Effect(bus, s, DEY, m).p, Down(s.core.y));
  }

  // The state after an instruction that does not branch.
  function Then(bus: Bus, s: State, op: Mnemonic, m: AddrMode): State { s.(core := Effect(bus, s, op, m)) }

  /** A step up and a step down undo each other. */
  lemma StepsUndo(bus: Bus, s: State, m: AddrMode, m': AddrMode)
    ensures Effect(bus, Then(bus, s, INX, m), DEX, m').x == s.core.x
    ensures Effect(bus, Then(bus, s, INY, m), DEY, m').y == s.core.y
  {
    hide Effect, Signs;
    StepsOfX(bus, s, m);
    StepsOfY(bus, s, m);
    StepsOfX(bus, Then(bus, s, INX, m), m');
    StepsOfY(bus, Then(bus, s, INY, m), m');
  }

  /** INC and DEC step the translated cell, and N and Z show what a read of it returns then. */
  lemma IncrementEffects(bus: Bus, s: State, m: AddrMode)
    ensures var c, addr := s.core, Addr(bus, s, m);
            var cell := bus.transl(addr);
            var up, down := Effect(bus, s, INC, m), Effect(bus, s, DEC, m);
            && up == c.(mem := up.mem, p := up.p) && Signs(up.p, MemRead(bus, up.mem, addr))
            && down == c.(mem := down.mem, p := down.p) && Signs(down.p, MemRead(bus, down.mem, addr))
            && up.mem == c.mem[cell := bus.write(cell, Up(c.mem[cell]))]
            && down.mem == c.mem[cell := bus.write(cell, Down(c.mem[cell]))]
  {
    hide MemRead, Addr, Pack, TestBit, Signs;
    var addr := Addr(bus, s, m);
    var up, down := Effect(bus, s, INC, m), Effect(bus, s, DEC, m);
    BasicSigns(up.p, MemRead(bus, up.mem, addr));
    BasicSigns(down.p, MemRead(bus, down.mem, addr));
  }

  // ---------- the stack ----------

  /** Pushes write below 0x200 at 0x100 + SP; pulls read one above SP. */
  lemma StackEffects(bus: Bus, s: State, m: AddrMode)
    ensures var c := s.core;
            var down, up := Down(c.sp), Up(c.sp);
            var pla, plp := Effect(bus, s, PLA, m), Effect(bus, s, PLP, m);
            && Effect(bus, s, PHA, m) == c.(mem := c.mem[0x100 + c.sp := c.a], sp := down)
            && Effect(bus, s, PHP, m) == c.(mem := c.mem[0x100 + c.sp := Pack(c.p)], sp := down)
            && pla == c.(a := c.mem[0x100 + up], sp := up, p := pla.p) && Signs(pla.p, c.mem[0x100 + up])
            && plp == c.(sp := up, p := plp.p) && Pack(plp.p) == c.mem[0x100 + up]
  {
    hide Effect, Pack, TestBit, Signs, Unpack;
    StackIs(bus, s, PHA, m);
    StackIs(bus, s, PHP, m);
    StackIs(bus, s, PLA, m);
    StackIs(bus, s, PLP, m);
    var up := Up(s.core.sp);
    BasicSigns(Effect(bus, s, PLA, m).p, s.core.mem[0x100 + up]);
    PackUnpack(s.core.mem[0x100 + up]);
  }

  /** What is pushed is what the next pull returns. */
  lemma PushPull(bus: Bus, s: State, m: AddrMode, m': AddrMode)
    ensures var c, c' := s.core, Effect(bus, Then(bus, s, PHA, m), PLA, m');
            c'.a == c.a && c'.sp == c.sp
    ensures var c, c' := s.core, Effect(bus, Then(bus, s, PHP, m), PLP, m');
            c'.p == c.p && c'.sp == c.sp
  {
    hide Effect, Pack, Signs;
    StackEffects(bus, s, m);
    StackEffects(bus, Then(bus, s, PHA, m), m');
    StackEffects(bus, Then(bus, s, PHP, m), m');
    UnpackPack(s.core.p);
    UnpackPack(Effect(bus, Then(bus, s, PHP, m), PLP, m').p);
  }

  // ---------- calculations ----------

  lemma OneBitAnd(a: bv8, b: bv8, g: bv8)
    requires SingleBit(g)
    ensures (a & b) & g != 0 <==> a & g != 0 && b & g != 0
  {
  }

  lemma BitwiseAnd(a: byte, b: byte, g: bv8)
    requires SingleBit(g)
    ensures TestBit(BitAnd(a, b), g) == (TestBit(a, g) && TestBit(b, g))
  {
    OneBitAnd(a as bv8, b as bv8, g);
    BitsRoundTrip((a as bv8) & (b as bv8));
  }

  lemma OneBitOr(a: bv8, b: bv8, g: bv8)
    requires SingleBit(g)
    ensures (a | b) & g != 0 <==> a & g != 0 || b & g != 0
  {
  }

  lemma BitwiseOr(a: byte, b: byte, g: bv8)
    requires SingleBit(g)
    ensures TestBit(BitOr(a, b), g) == (TestBit(a, g) || TestBit(b, g))
  {
    OneBitOr(a as bv8, b as bv8, g);
    BitsRoundTrip((a as bv8) | (b as bv8));
  }

  lemma OneBitXor(a: bv8, b: bv8, g: bv8)
    requires SingleBit(g)
    ensures (a ^ b) & g != 0 <==> (a & g != 0) != (b & g != 0)
  {
  }

  lemma BitwiseXor(a: byte, b: byte, g: bv8)
    requires SingleBit(g)
    ensures TestBit(BitXor(a, b), g) == (TestBit(a, g) != TestBit(b, g))
  {
    OneBitXor(a as bv8, b as bv8, g);
    BitsRoundTrip((a as bv8) ^ (b as bv8));
  }

  /** AND, EOR and ORA work bit by bit; N and Z show the result of AND, but the old accumulator for the others. */
  lemma LogicEffects(bus: Bus, s: State, m: AddrMode)
    ensures var c, v := s.core, Operand(bus, s, m);
            var and, eor, ora := Effect(bus, s, AND, m), Effect(bus, s, EOR, m), Effect(bus, s, ORA, m);
            && and == c.(a := and.a, p := and.p) && Signs(and.p, and.a)
            && eor == c.(a := eor.a, p := eor.p) && Signs(eor.p, c.a)
            && ora == c.(a := ora.a, p := ora.p) && Signs(ora.p, c.a)
            && forall g: bv8 :: SingleBit(g) ==>
                 && TestBit(and.a, g) == (TestBit(c.a, g) && TestBit(v, g))
                 && TestBit(eor.a, g) == (TestBit(c.a, g) != TestBit(v, g))
                 && TestBit(ora.a, g) == (TestBit(c.a, g) || TestBit(v, g))
  {
    hide Operand, BitAnd, BitOr, BitXor, Pack, TestBit, Signs, Unpack, SingleBit;
    var c, v := s.core, Operand(bus, s, m);
    BasicSigns(Effect(bus, s, AND, m).p, BitAnd(c.a, v));
    BasicSigns(Effect(bus, s, EOR, m).p, c.a);
    BasicSigns(Effect(bus, s, ORA, m).p, c.a);
    forall g: bv8 | SingleBit(g)
      ensures TestBit(BitAnd(c.a, v), g) == (TestBit(c.a, g) && TestBit(v, g))
      ensures TestBit(BitXor(c.a, v), g) == (TestBit(c.a, g) != TestBit(v, g))
      ensures TestBit(BitOr(c.a, v), g) == (TestBit(c.a, g) || TestBit(v, g))
    {
      BitwiseAnd(c.a, v, g);
      BitwiseOr(c.a, v, g);
      BitwiseXor(c.a, v, g);
    }
  }

  /** ADC and SBC: the accumulator, C in bit 0x01, V always clear in bit 0x40, N and Z of the result. */
  lemma ArithmeticEffects(bus: Bus, s: State, m: AddrMode)
    ensures var c, v := s.core, Operand(bus, s, m);
            var carry := if TestBit(Pack(c.p), 0x01) then 1 else 0;
            var adc, sbc := Effect(bus, s, ADC, m), Effect(bus, s, SBC, m);
            && adc == c.(a := adc.a, p := adc.p) && Signs(adc.p, adc.a) && !TestBit(Pack(adc.p), 0x40)
            && sbc == c.(a := sbc.a, p := sbc.p) && Signs(sbc.p, sbc.a) && !TestBit(Pack(sbc.p), 0x40)
            && adc.a == (c.a + v + carry) % 0x100
            && sbc.a == (c.a - v - 1 + carry) % 0x100
            && TestBit(Pack(adc.p), 0x01) == (c.a + v + carry >= 0x100)
            && TestBit(Pack(sbc.p), 0x01) == (c.a + carry > v)
  {
    hide Operand, Pack, TestBit, Signs, Unpack;
    PackedBits(s.core.p);
    PackedBits(Effect(bus, s, ADC, m).p);
    PackedBits(Effect(bus, s, SBC, m).p);
    BasicSigns(Effect(bus, s, ADC, m).p, Effect(bus, s, ADC, m).a);
    BasicSigns(Effect(bus, s, SBC, m).p, Effect(bus, s, SBC, m).a);
  }

  /** The register that a comparison compares. */
  function Compared(c: Core, op: Mnemonic): byte {
    if op == CPX then c.x else if op == CPY then c.y else c.a
  }

  predicate Compares(op: Mnemonic) { op == CMP || op == CPX || op == CPY }

  lemma AluCompares(c: Core, op: Mnemonic, v: byte)
    requires Compares(op)
    ensures Alu(c, op, v) == Compare(c, if op == CPX then RegX else if op == CPY then RegY else RegA, v)
  {
    hide Compare;
  }

  lemma CompareFlags(bus: Bus, s: State, op: Mnemonic, m: AddrMode)
    requires Compares(op)
    ensures var c, c', r, v := s.core, Effect(bus, s, op, m), Compared(s.core, op), Operand(bus, s, m);
            && c' == c.(p := c'.p) && c'.p.c == (r >= v) && c'.p.v == c.p.v
            && c'.p.z == ((r - v) % 0x100 == 0) && c'.p.n == ((r - v) % 0x100 >= 0x80)
  {
    hide Effect, Alu, Operand, Pack;
    AluIs(bus, s, op, m);
    AluCompares(s.core, op, Operand(bus, s, m));
  }

  /** A comparison only sets flags: C says "at least", N and Z show the truncated difference. */
  lemma CompareEffects(bus: Bus, s: State, op: Mnemonic, m: AddrMode)
    requires Compares(op)
    ensures var c, c', r, v := s.core, Effect(bus, s, op, m), Compared(s.core, op), Operand(bus, s, m);
            && c' == c.(p := c'.p)
            && Signs(c'.p, (r - v) % 0x100)
            && TestBit(Pack(c'.p), 0x01) == (r >= v)
            && TestBit(Pack(c'.p), 0x40) == TestBit(Pack(c.p), 0x40)
  {
    hide Operand, Pack, TestBit, Signs, Compared, Compares, Effect;
    var c' := Effect(bus, s, op, m);
    CompareFlags(bus, s, op, m);
    PackedBits(s.core.p);
    PackedBits(c'.p);
    BasicSigns(c'.p, (Compared(s.core, op) - Operand(bus, s, m)) % 0x100);
  }

  /** BIT always sets Z and clears N, whatever it tests. */
  lemma BitEffects(bus: Bus, s: State, m: AddrMode)
    ensures var c' := Effect(bus, s, BIT, m);
            && c' == s.core.(p := c'.p) && Signs(c'.p, 0)
            && TestBit(Pack(c'.p), 0x40) == TestBit(Pack(s.core.p), 0x40)
  {
    hide Operand, Pack, TestBit, Signs, Unpack;
    var c' := Effect(bus, s, BIT, m);
    PackedBits(s.core.p);
    PackedBits(c'.p);
    BasicSigns(c'.p, 0);
  }

  /** After a shift N and Z show what a read of the cell returns, or the accumulator. */
  lemma ShiftSigns(bus: Bus, s: State, op: Mnemonic, m: AddrMode)
    requires ShiftsLeft(op) || ShiftsRight(op)
    ensures var c', addr := Effect(bus, s, op, m), Addr(bus, s, m);
            && Signs(c'.p, if addr != INVALID_ADDRESS then MemRead(bus, c'.mem, addr) else c'.a)
            && c'.x == s.core.x && c'.y == s.core.y && c'.sp == s.core.sp
  {
    hide Effect, MemRead, MemWrite, Addr, Shifted, ShiftedOut, Pack, TestBit, Signs, Unpack, ShiftsLeft, ShiftsRight;
    ShiftIs(bus, s, op, m);
    var c', addr := Effect(bus, s, op, m), Addr(bus, s, m);
    BasicSigns(c'.p, if addr != INVALID_ADDRESS then MemRead(bus, c'.mem, addr) else c'.a);
  }

  // ---------- flag instructions ----------

  lemma OneBitChanged(p: Flags, p': Flags, bit: bv8, on: bool)
    requires IsFlag(bit) && p' == UpdateFlag(p, bit, on)
    ensures OnlyBit(p, p', bit, on)
  {
    hide Pack, TestBit;
    PackedBits(p);
    PackedBits(p');
  }

  // The bit of the status byte that a flag instruction is about.
  function BitOf(op: Mnemonic): bv8 {
    match op
    case SEC | CLC => 0x01
    case SEI | CLI => 0x04
    case SED | CLD => 0x08
    case _ => 0x40
  }

  predicate TurnsOn(op: Mnemonic) { op == SEC || op == SEI || op == SED }

  /** Each flag instruction sets or clears its own bit of the status byte and nothing else. */
  lemma FlagEffects(bus: Bus, s: State, op: Mnemonic, m: AddrMode)
    requires Kind(op) == Flagging
    ensures var c, c' := s.core, Effect(bus, s, op, m);
            c' == c.(p := c'.p) && OnlyBit(c.p, c'.p, BitOf(op), TurnsOn(op))
  {
    hide OnlyBit;
    OneBitChanged(s.core.p, FlagOp(s.core.p, op), BitOf(op), TurnsOn(op));
  }

  // ---------- branches ----------

  /** BCS, BCC, BEQ and BNE test bits 0x01 and 0x02 of the status byte. */
  lemma BranchOnCarryOrZero(p: Flags)
    ensures Taken(p, BCS) == TestBit(Pack(p), 0x01) && Taken(p, BCC) == !TestBit(Pack(p), 0x01)
    ensures Taken(p, BEQ) == TestBit(Pack(p), 0x02) && Taken(p, BNE) == !TestBit(Pack(p), 0x02)
  {
    hide Pack, TestBit;
    PackedBits(p);
  }

  /** BVS, BVC, BMI and BPL test bits 0x40 and 0x80. */
  lemma BranchOnOverflowOrSign(p: Flags)
    ensures Taken(p, BVS) == TestBit(Pack(p), 0x40) && Taken(p, BVC) == !TestBit(Pack(p), 0x40)
    ensures Taken(p, BMI) == TestBit(Pack(p), 0x80) && Taken(p, BPL) == !TestBit(Pack(p), 0x80)
  {
    hide Pack, TestBit;
    PackedBits(p);
  }

  lemma JumpsAlways(p: Flags)
    ensures Taken(p, JMP) && Taken(p, JSR) && Taken(p, RTS) && Taken(p, BRK)
  {
  }

  /** How two bytes must stand for a branch after their comparison to be taken. */
  predicate Stand(op: Mnemonic, r: byte, v: byte) {
    match op
    case BEQ => r == v
    case BNE => r != v
    case BCS => r >= v
    case BCC => r < v
    case BMI => (r - v) % 0x100 >= 0x80
    case BPL => (r - v) % 0x100 < 0x80
    case _ => false
  }

  predicate TestsComparison(op: Mnemonic) {
    op == BEQ || op == BNE || op == BCS || op == BCC || op == BMI || op == BPL
  }

  /** A branch after a comparison is taken exactly when register and operand stand so. */
  lemma BranchAfterCompare(bus: Bus, s: State, op: Mnemonic, m: AddrMode, branch: Mnemonic)
    requires Compares(op) && TestsComparison(branch)
    ensures Taken(Effect(bus, s, op, m).p, branch) <==> Stand(branch, Compared(s.core, op), Operand(bus, s, m))
  {
    hide Effect, Operand, Compared, Compares, Taken, Pack, TestBit;
    CompareEffects(bus, s, op, m);
    BranchOnCarryOrZero(Effect(bus, s, op, m).p);
    BranchOnOverflowOrSign(Effect(bus, s, op, m).p);
  }

  // ---------- addresses ----------

  /** Immediate, zero-page, absolute and relative addresses in terms of the operand bytes. */
  lemma OperandAddresses(bus: Bus, s: State)
    ensures var b1 := MemRead(bus, s.core.mem, (s.pc + 1) % 0x1_0000);
            var b2 := MemRead(bus, s.core.mem, (s.pc + 2) % 0x1_0000);
            && Addr(bus, s, Immediate) == (s.pc + 1) % 0x1_0000
            && Addr(bus, s, ZeroPage) == b1
            && Addr(bus, s, Absolute) == 0x100 * b2 + b1
            && Addr(bus, s, Relative) == (s.pc + 2 + (if b1 < 0x80 then b1 else b1 - 0x100)) % 0x1_0000
  {
    hide MemRead;
  }

  /** Each indexed mode adds its own register; an indexed zero-page address may leave the zero page. */
  lemma IndexedAddresses(bus: Bus, s: State)
    ensures Addr(bus, s, AbsoluteX) == (Addr(bus, s, Absolute) + s.core.x) % 0x1_0000
    ensures Addr(bus, s, AbsoluteY) == (Addr(bus, s, Absolute) + s.core.y) % 0x1_0000
    ensures Addr(bus, s, ZeroPageX) == Addr(bus, s, ZeroPage) + s.core.x
    ensures Addr(bus, s, ZeroPageY) == Addr(bus, s, ZeroPage) + s.core.y
  {
    hide MemRead;
  }

  function WordThere(bus: Bus, mem: Memory, addr: word): word {
    0x100 * (MemRead(bus, mem, (addr + 1) % 0x1_0000) as int) + MemRead(bus, mem, addr)
  }

  /** The pointer of each indirect mode: X is added before the pointer is read, Y after it. */
  lemma IndirectAddresses(bus: Bus, s: State)
    ensures var mem := s.core.mem;
            && Addr(bus, s, Indirect) == WordThere(bus, mem, Addr(bus, s, Absolute))
            && Addr(bus, s, IndexedIndirect) == WordThere(bus, mem, Addr(bus, s, ZeroPageX))
            && Addr(bus, s, IndirectIndexed) ==
               (WordThere(bus, mem, Addr(bus, s, ZeroPage)) + s.core.y) % 0x1_0000
  {
    hide MemRead;
  }

  predicate UsesX(m: AddrMode) { m == ZeroPageX || m == AbsoluteX || m == IndexedIndirect }

  predicate UsesY(m: AddrMode) { m == ZeroPageY || m == AbsoluteY || m == IndirectIndexed }

  /** An address depends on program counter, memory and the index register of its mode, and on nothing else. */
  lemma AddressDepends(bus: Bus, s: State, s': State, m: AddrMode)
    requires s.pc == s'.pc && s.core.mem == s'.core.mem
    requires (UsesX(m) ==> s.core.x == s'.core.x) && (UsesY(m) ==> s.core.y == s'.core.y)
    ensures Addr(bus, s, m) == Addr(bus, s', m)
  {
    hide MemRead;
  }

  // What an instruction at 0x200 is about, without hooks: the immediate byte, or else the address.
  function Meant(c: Core, m: AddrMode): int {
    var addr := Addr(PLAIN_BUS, State(0x200, INVALID_ADDRESS, c), m);
    if m == Immediate then c.mem[addr] else addr
  }

  predicate ByteMatters(c: Core, m: AddrMode, k: int, v: byte)
    requires 1 <= k <= 2
  {
    Meant(c.(mem := c.mem[0x200 + k := v]), m) != Meant(c, m)
  }

  lemma BeyondLength(c: Core, m: AddrMode, k: int, v: byte)
    requires 1 <= k <= 2 && Length(m) <= k
    ensures !ByteMatters(c, m, k, v)
  {
  }

  predicate ReadsPointer(m: AddrMode) { m == Indirect || m == IndexedIndirect || m == IndirectIndexed }

  // What an instruction with these operand bytes is about in a mode without a pointer, with X and Y zero.
  function DirectValue(m: AddrMode, b1: byte, b2: byte): int {
    if Length(m) == 3 then 0x100 * (b2 as int) + b1 else if m == Relative then 0x202 + Signed(b1) else b1
  }

  lemma DirectMeant(c: Core, m: AddrMode)
    requires !ReadsPointer(m) && Length(m) > 1 && c.x == c.y == 0
    ensures Meant(c, m) == DirectValue(m, c.mem[0x201], c.mem[0x202])
  {
    hide Addr, MemRead;
    var s := State(0x200, INVALID_ADDRESS, c);
    OperandAddresses(PLAIN_BUS, s);
    IndexedAddresses(PLAIN_BUS, s);
    PlainBusReads(c.mem, 0x201);
    PlainBusReads(c.mem, 0x202);
  }

  lemma DirectValuesDiffer(m: AddrMode)
    ensures DirectValue(m, 1, 0) != DirectValue(m, 0, 0)
    ensures Length(m) == 3 ==> DirectValue(m, 0, 1) != DirectValue(m, 0, 0)
  {
  }

  lemma WithinDirect(c: Core, m: AddrMode, k: int)
    requires 1 <= k < Length(m) && !ReadsPointer(m) && c.x == c.y == 0 && c.mem[0x201] == c.mem[0x202] == 0
    ensures ByteMatters(c, m, k, 1)
  {
    hide Meant, Length, DirectValue;
    DirectMeant(c, m);
    DirectMeant(c.(mem := c.mem[0x200 + k := 1]), m);
    DirectValuesDiffer(m);
  }

  lemma PointedWords(mem: Memory)
    requires mem[0] == 0 && mem[1] == 5 && mem[2] == mem[0x100] == mem[0x101] == 0
    ensures WordThere(PLAIN_BUS, mem, 0) == 0x500
    ensures WordThere(PLAIN_BUS, mem, 1) == 5 && WordThere(PLAIN_BUS, mem, 0x100) == 0
  {
  }

  lemma WithinPointer(c: Core, m: AddrMode, k: int)
    requires 1 <= k < Length(m) && ReadsPointer(m) && c.x == c.y == 0 && c.mem[0x201] == c.mem[0x202] == 0
    requires c.mem[0] == 0 && c.mem[1] == 5 && c.mem[2] == c.mem[0x100] == c.mem[0x101] == 0
    ensures ByteMatters(c, m, k, 1)
  {
    hide Length, Meant, WordThere;
    var mem': Memory := c.mem[0x200 + k := 1];
    PointerMeant(c, m);
    PointerMeant(c.(mem := mem'), m);
    PointedWords(c.mem);
    PointedWords(mem');
    LengthOfPointers();
    assert k == 1 || m == Indirect;
  }

  lemma LengthOfPointers()
    ensures Length(Indirect) == 3 && Length(IndexedIndirect) == Length(IndirectIndexed) == 2
  {
  }

  lemma PlainBusReads(mem: Memory, addr: word)
    ensures MemRead(PLAIN_BUS, mem, addr) == mem[addr]
  {
  }

  lemma PointerMeant(c: Core, m: AddrMode)
    requires ReadsPointer(m) && c.x == c.y == 0
    ensures Meant(c, m) ==
            WordThere(PLAIN_BUS, c.mem,
                      if m == Indirect then 0x100 * (c.mem[0x202] as int) + c.mem[0x201] else c.mem[0x201])
  {
    hide Addr, WordThere, MemRead;
    var s := State(0x200, INVALID_ADDRESS, c);
    PlainBusReads(c.mem, 0x201);
    PlainBusReads(c.mem, 0x202);
    OperandAddresses(PLAIN_BUS, s);
    IndexedAddresses(PLAIN_BUS, s);
    IndirectAddresses(PLAIN_BUS, s);
  }

  /** The length of an instruction counts exactly the bytes on which its operand depends. */
  lemma LengthIsExact(m: AddrMode, k: int)
    requires 1 <= k <= 2
    ensures k < Length(m) <==> exists c: Core, v: byte :: ByteMatters(c, m, k, v)
  {
    hide ByteMatters;
    if k < Length(m) {
      var c := Cleared().(mem := Cleared().mem[1 := 5]);
      if ReadsPointer(m) {
        WithinPointer(c, m, k);
      } else {
        WithinDirect(c, m, k);
      }
    } else {
      forall c: Core, v: byte
        ensures !ByteMatters(c, m, k, v)
      {
        BeyondLength(c, m, k, v);
      }
    }
  }

  // ---------- what goes on where ----------

  /** BRK goes on at the word in 0xFFFE and 0xFFFF, and changes nothing. */
  lemma BreakEffects(bus: Bus, s: State, m: AddrMode)
    ensures Exec(bus, s, BRK, m) == s.(branched := WordThere(bus, s.core.mem, 0xFFFE))
  {
    hide MemRead, Addr;
  }

  /** NOP, RTI and the undocumented opcodes do nothing. */
  lemma IdleEffects(bus: Bus, s: State, op: Mnemonic, m: AddrMode)
    requires op == NOP || op == RTI || op == XXX
    ensures Exec(bus, s, op, m) == s
  {
    hide Addr;
  }

  /** The fetch fails its assertion exactly at the last six addresses. */
  lemma FetchAborts(bus: Bus, s: State)
    ensures Step(bus, s).Aborted? <==> NextPc(bus, s) >= 0xFFFA
  {
    hide ExecCurrent, NextPc;
  }
}
