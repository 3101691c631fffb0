/**
 * Multi-byte arithmetic as programs do it, one byte at a time through the carry: straight-line
 * programs in memory, executed by the machine, compute on numbers of any length.
 */
module MultiByte {
  import opened Bytes
  import opened Opcodes
  import opened Machine
  import opened Programs
  import opened StatusRegister

  // ---------- numbers in memory ----------

  function Power(n: nat): int { if n == 0 then 1 else 0x100 * Power(n - 1) }

  /** The n-byte little-endian number at an address. */
  function Num(mem: Memory, addr: int, n: nat): int
    requires 0 <= addr && addr + n <= 0x1_0000
    decreases n
  {
    if n == 0 then 0 else mem[addr] + 0x100 * Num(mem, addr + 1, n - 1)
  }

  lemma {:induction false} NumBounds(mem: Memory, addr: int, n: nat)
    requires 0 <= addr && addr + n <= 0x1_0000
    ensures 0 <= Num(mem, addr, n) < Power(n)
    decreases n
  {
    if n > 0 {
      NumBounds(mem, addr + 1, n - 1);
    }
  }

  lemma {:induction false} NumDepends(mem: Memory, mem': Memory, addr: int, n: nat)
    requires 0 <= addr && addr + n <= 0x1_0000
    requires forall a :: addr <= a < addr + n ==> mem[a] == mem'[a]
    ensures Num(mem, addr, n) == Num(mem', addr, n)
    decreases n
  {
    if n > 0 {
      NumDepends(mem, mem', addr + 1, n - 1);
    }
  }

  // ---------- one instruction with a zero-page or absolute operand ----------

  /** An instruction in one of the two modes that name a cell directly. */
  predicate Instruction(mem: Memory, at: int, op: Mnemonic, mode: AddrMode, operand: int)
    requires 0 <= at < 0xFFFD && 0 <= operand < 0x1_0000
  {
    (mode == ZeroPage || mode == Absolute) && Code(mem, at, op, mode, operand)
  }

  /** Stepping over such an instruction that is not a jump, when it leaves its opcode byte alone. */
  lemma DirectStep(bus: Bus, s: State, at: word, op: Mnemonic, mode: AddrMode, operand: word)
    requires at < RESERVED_START && AtPc(bus, s, at) && PlainRange(bus, at, Length(mode))
    requires Instruction(s.core.mem, at, op, mode, operand)
    requires !Kind(op).Jumping? && !Kind(op).Calling?
    ensures var here := Here(s, at);
            var core := Effect(bus, here, op, mode);
            && Addr(bus, here, mode) == operand
            && Step(bus, s) == Running(here.(core := core))
            && (core.mem[at] == s.core.mem[at] ==> AtPc(bus, here.(core := core), at + Length(mode)))
  {
    hide Decode, Effect, Code, CurrentOpcode, NextPc, MemRead, Step, Target;
    CodeStep(bus, s, at, op, mode, operand);
    CodeIsRead(bus, Here(s, at), op, mode, operand);
    NotTaken(s.core.p, op);
  }

  // ---------- addition and subtraction ----------

  predicate AddsOrSubtracts(op: Mnemonic) { op == ADC || op == SBC }

  // The sign of the second operand, and the carry as a number to add: a borrow counts -1.
  function Sign(op: Mnemonic): int { if op == SBC then -1 else 1 }

  function CarryIn(op: Mnemonic, c: bool): int {
    (if c then 1 else 0) - (if op == SBC then 1 else 0)
  }

  lemma LoadByte(bus: Bus, s: State, at: word, mode: AddrMode, operand: word)
    requires at < RESERVED_START && AtPc(bus, s, at) && PlainRange(bus, at, Length(mode)) && Plain(bus, operand)
    requires Instruction(s.core.mem, at, LDA, mode, operand)
    ensures Step(bus, s).Running?
    ensures var s' := Step(bus, s).state;
            && AtPc(bus, s', at + Length(mode))
            && s'.core.a == s.core.mem[operand] && s'.core.mem == s.core.mem && s'.core.p.c == s.core.p.c
  {
    hide Decode, Addr, NextPc, Step;
    DirectStep(bus, s, at, LDA, mode, operand);
  }

  lemma CombineByte(bus: Bus, s: State, at: word, op: Mnemonic, mode: AddrMode, operand: word)
    requires at < RESERVED_START && AtPc(bus, s, at) && PlainRange(bus, at, Length(mode)) && Plain(bus, operand)
    requires AddsOrSubtracts(op) && Instruction(s.core.mem, at, op, mode, operand) && operand != INVALID_ADDRESS
    ensures Step(bus, s).Running?
    ensures var s' := Step(bus, s).state;
            && AtPc(bus, s', at + Length(mode)) && s'.core.mem == s.core.mem
            && s'.core.a + 0x100 * CarryIn(op, s'.core.p.c) ==
               s.core.a + Sign(op) * s.core.mem[operand] + CarryIn(op, s.core.p.c)
  {
    hide Decode, Addr, NextPc, Step, MemRead, Add, Subtract;
    DirectStep(bus, s, at, op, mode, operand);
    PlainRead(bus, s.core.mem, operand);
    CombineEquation(s.core, s.core.mem[operand]);
  }

  lemma CombineEquation(c: Core, v: byte)
    ensures Add(c, v).mem == c.mem && Subtract(c, v).mem == c.mem
    ensures Add(c, v).a + 0x100 * CarryIn(ADC, Add(c, v).p.c) == c.a + v + CarryIn(ADC, c.p.c)
    ensures Subtract(c, v).a + 0x100 * CarryIn(SBC, Subtract(c, v).p.c) == c.a - v + CarryIn(SBC, c.p.c)
  {
    hide BasicFlags;
  }

  lemma StoreByte(bus: Bus, s: State, at: word, mode: AddrMode, operand: word)
    requires at < RESERVED_START && AtPc(bus, s, at) && PlainRange(bus, at, Length(mode)) && Plain(bus, operand)
    requires Instruction(s.core.mem, at, STA, mode, operand) && operand != at
    ensures Step(bus, s).Running?
    ensures var s' := Step(bus, s).state;
            && AtPc(bus, s', at + Length(mode))
            && s'.core.mem == s.core.mem[operand := s.core.a] && s'.core.p.c == s.core.p.c
  {
    hide Decode, Addr, NextPc, Step;
    DirectStep(bus, s, at, STA, mode, operand);
  }

  // The modes of the three instructions of one round; they may differ from round to round.
  datatype Round = Round(load: AddrMode, combine: AddrMode, store: AddrMode)

  function RoundSize(k: Round): nat { Length(k.load) + Length(k.combine) + Length(k.store) }

  function Size(rounds: seq<Round>): nat {
    if rounds == [] then 0 else RoundSize(rounds[0]) + Size(rounds[1..])
  }

  /** One round a byte: load it at a, add or subtract the byte at b, store at r; then each address one up. */
  ghost predicate ChainProgram(mem: Memory, base: int, rounds: seq<Round>, op: Mnemonic, a: int, b: int, r: int)
    requires 0 <= base && base + Size(rounds) <= RESERVED_START
    requires 0 <= a && a + |rounds| <= 0x1_0000
    requires 0 <= b && b + |rounds| <= 0x1_0000
    requires 0 <= r && r + |rounds| <= 0x1_0000
    decreases |rounds|
  {
    rounds != [] ==>
      var k := rounds[0];
      && Instruction(mem, base, LDA, k.load, a)
      && Instruction(mem, base + Length(k.load), op, k.combine, b)
      && Instruction(mem, base + Length(k.load) + Length(k.combine), STA, k.store, r)
      && ChainProgram(mem, base + RoundSize(k), rounds[1..], op, a + 1, b + 1, r + 1)
  }

  /** The result is apart from the program, and does not run ahead of an operand still to be read. */
  predicate Apart(base: int, size: nat, n: nat, a: int, b: int, r: int) {
    && (r + n <= base || base + size <= r)
    && !(a < r < a + n) && !(b < r < b + n)
  }

  /** Program and operands lie where no hook acts, and the second operand stays below 0xFFFF. */
  ghost predicate ChainPlaced(bus: Bus, base: int, rounds: seq<Round>, a: int, b: int, r: int) {
    var n, size := |rounds|, Size(rounds);
    && PlainRange(bus, base, size) && base + size <= RESERVED_START
    && PlainRange(bus, a, n) && PlainRange(bus, b, n) && PlainRange(bus, r, n)
    && b + n < 0x1_0000
    && Apart(base, size, n, a, b, r)
  }

  lemma {:induction false} ProgramDepends(mem: Memory, mem': Memory, base: int, rounds: seq<Round>, op: Mnemonic,
                                          a: int, b: int, r: int)
    requires 0 <= base && base + Size(rounds) <= RESERVED_START
    requires 0 <= a && a + |rounds| <= 0x1_0000
    requires 0 <= b && b + |rounds| <= 0x1_0000
    requires 0 <= r && r + |rounds| <= 0x1_0000
    requires ChainProgram(mem, base, rounds, op, a, b, r)
    requires forall x :: base <= x < base + Size(rounds) ==> mem[x] == mem'[x]
    ensures ChainProgram(mem', base, rounds, op, a, b, r)
    decreases |rounds|
  {
    hide Decode, LowByte, HighByte;
    if rounds != [] {
      ProgramDepends(mem, mem', base + RoundSize(rounds[0]), rounds[1..], op, a + 1, b + 1, r + 1);
    }
  }

  /** One round: three steps, one byte of the result, and the carry for the next round. */
  lemma ChainRound(bus: Bus, s: State, base: word, rounds: seq<Round>, op: Mnemonic, a: word, b: word, r: word)
    requires rounds != [] && ChainPlaced(bus, base, rounds, a, b, r)
    requires ChainProgram(s.core.mem, base, rounds, op, a, b, r)
    requires AddsOrSubtracts(op) && AtPc(bus, s, base)
    ensures Run(bus, s, 3).Running?
    ensures var s' := Run(bus, s, 3).state;
            && AtPc(bus, s', base + RoundSize(rounds[0]))
            && s'.core.mem == s.core.mem[r := s'.core.mem[r]]
            && s'.core.mem[r] + 0x100 * CarryIn(op, s'.core.p.c) ==
               s.core.mem[a] + Sign(op) * s.core.mem[b] + CarryIn(op, s.core.p.c)
  {
    hide Step, NextPc, Instruction, Plain, CarryIn, Sign, AddsOrSubtracts, Length;
    var k, size := rounds[0], Size(rounds);
    var second := base + Length(k.load);
    var third := second + Length(k.combine);
    SubRange(bus, base, size, base, Length(k.load));
    SubRange(bus, base, size, second, Length(k.combine));
    SubRange(bus, base, size, third, Length(k.store));
    assert Plain(bus, a) && Plain(bus, b) && Plain(bus, r);
    LoadByte(bus, s, base, k.load, a);
    var s1 := Step(bus, s).state;
    CombineByte(bus, s1, second, op, k.combine, b);
    var s2 := Step(bus, s1).state;
    StoreByte(bus, s2, third, k.store, r);
    ThreeSteps(bus, s);
  }

  /** What is left of a chain after its first round is a chain of its own, which the round did not disturb. */
  lemma ChainTail(bus: Bus, mem: Memory, v: byte, base: int, rounds: seq<Round>, op: Mnemonic,
                  a: int, b: int, r: int)
    requires rounds != [] && ChainPlaced(bus, base, rounds, a, b, r)
    requires ChainProgram(mem, base, rounds, op, a, b, r)
    ensures var base', n := base + RoundSize(rounds[0]), |rounds| - 1;
            && ChainPlaced(bus, base', rounds[1..], a + 1, b + 1, r + 1)
            && ChainProgram(mem[r := v], base', rounds[1..], op, a + 1, b + 1, r + 1)
            && Num(mem[r := v], a + 1, n) == Num(mem, a + 1, n)
            && Num(mem[r := v], b + 1, n) == Num(mem, b + 1, n)
  {
    hide Plain, Instruction, RoundSize;
    var mem': Memory := mem[r := v];
    ProgramDepends(mem, mem', base + RoundSize(rounds[0]), rounds[1..], op, a + 1, b + 1, r + 1);
    NumDepends(mem, mem', a + 1, |rounds| - 1);
    NumDepends(mem, mem', b + 1, |rounds| - 1);
  }

  /**
   * The whole program: it runs to its end, writes nothing but the result, and result and final carry
   * are the sum (or difference) of the two numbers and the initial carry (or borrow).
   */
  lemma {:induction false} ChainComputes(bus: Bus, s: State, base: int, rounds: seq<Round>, op: Mnemonic,
                                         a: int, b: int, r: int)
    requires ChainPlaced(bus, base, rounds, a, b, r) && ChainProgram(s.core.mem, base, rounds, op, a, b, r)
    requires AddsOrSubtracts(op) && AtPc(bus, s, base)
    ensures Run(bus, s, 3 * |rounds|).Running?
    ensures var s', n := Run(bus, s, 3 * |rounds|).state, |rounds|;
            && AtPc(bus, s', base + Size(rounds))
            && (forall x :: 0 <= x < 0x1_0000 && !(r <= x < r + n) ==> s'.core.mem[x] == s.core.mem[x])
            && Num(s'.core.mem, r, n) + Power(n) * CarryIn(op, s'.core.p.c) ==
               Num(s.core.mem, a, n) + Sign(op) * Num(s.core.mem, b, n) + CarryIn(op, s.core.p.c)
    decreases |rounds|
  {
    hide Step, AtPc, ChainProgram, ChainPlaced, CarryIn, Sign, AddsOrSubtracts, RoundSize;
    ChainRegions(bus, base, rounds, a, b, r);
    var n := |rounds|;
    if n > 0 {
      ChainRound(bus, s, base, rounds, op, a, b, r);
      var s1 := Run(bus, s, 3).state;
      ChainTail(bus, s.core.mem, s1.core.mem[r], base, rounds, op, a, b, r);
      ChainComputes(bus, s1, base + RoundSize(rounds[0]), rounds[1..], op, a + 1, b + 1, r + 1);
      RunSplit(bus, s, 3, 3 * (n - 1));
      hide Run;
      var s' := Run(bus, s1, 3 * (n - 1)).state;
      DigitAndRest(s1.core.mem[r], Num(s'.core.mem, r + 1, n - 1), Power(n - 1),
                   CarryIn(op, s'.core.p.c), CarryIn(op, s1.core.p.c), CarryIn(op, s.core.p.c), Sign(op),
                   s.core.mem[a], s.core.mem[b], Num(s.core.mem, a + 1, n - 1), Num(s.core.mem, b + 1, n - 1));
    }
  }

  lemma DigitAndRest(digit: int, rest: int, power: int, k2: int, k1: int, k0: int, sign: int,
                     a0: int, b0: int, a: int, b: int)
    requires digit + 0x100 * k1 == a0 + sign * b0 + k0
    requires rest + power * k2 == a + sign * b + k1
    ensures digit + 0x100 * rest + 0x100 * power * k2 == a0 + 0x100 * a + sign * (b0 + 0x100 * b) + k0
  {
  }

  /** Chained ADC adds n-byte numbers: the carry out says exactly whether the sum needs another byte. */
  lemma ChainedAdc(bus: Bus, s: State, base: int, rounds: seq<Round>, a: int, b: int, r: int)
    requires ChainPlaced(bus, base, rounds, a, b, r) && ChainProgram(s.core.mem, base, rounds, ADC, a, b, r)
    requires AtPc(bus, s, base)
    ensures Run(bus, s, 3 * |rounds|).Running?
    ensures var s', n := Run(bus, s, 3 * |rounds|).state, |rounds|;
            var sum := Num(s.core.mem, a, n) + Num(s.core.mem, b, n) + Carry(s.core.p);
            && s'.core.p.c == (sum >= Power(n))
            && Num(s'.core.mem, r, n) == if sum >= Power(n) then sum - Power(n) else sum
  {
    hide Run, AtPc, ChainProgram, ChainPlaced, Num, Size;
    ChainRegions(bus, base, rounds, a, b, r);
    ChainComputes(bus, s, base, rounds, ADC, a, b, r);
    NumBounds(Run(bus, s, 3 * |rounds|).state.core.mem, r, |rounds|);
  }

  /** Chained SBC subtracts them: the carry out is set exactly when nothing had to be borrowed. */
  lemma ChainedSbc(bus: Bus, s: State, base: int, rounds: seq<Round>, a: int, b: int, r: int)
    requires ChainPlaced(bus, base, rounds, a, b, r) && ChainProgram(s.core.mem, base, rounds, SBC, a, b, r)
    requires AtPc(bus, s, base)
    ensures Run(bus, s, 3 * |rounds|).Running?
    ensures var s', n := Run(bus, s, 3 * |rounds|).state, |rounds|;
            var minuend := Num(s.core.mem, a, n);
            var subtrahend := Num(s.core.mem, b, n) + (1 - Carry(s.core.p));
            && s'.core.p.c == (minuend >= subtrahend)
            && Num(s'.core.mem, r, n) ==
               minuend - subtrahend + (if minuend >= subtrahend then 0 else Power(n))
  {
    hide Run, AtPc, ChainProgram, ChainPlaced, Num, Size;
    ChainRegions(bus, base, rounds, a, b, r);
    ChainComputes(bus, s, base, rounds, SBC, a, b, r);
    NumBounds(Run(bus, s, 3 * |rounds|).state.core.mem, r, |rounds|);
  }

  /** The bytes of LDA $C0+i, SBC $B0+i, STA $C2+i in zero-page mode. */
  predicate SbcRound(mem: Memory, at: int, i: byte)
    requires 0 <= at && at + 6 <= RESERVED_START && i < 0x10
  {
    && mem[at] == 0xA5 && mem[at + 1] == 0xC0 + i
    && mem[at + 2] == 0xE5 && mem[at + 3] == 0xB0 + i
    && mem[at + 4] == 0x85 && mem[at + 5] == 0xC2 + i
  }

  const ZERO_PAGE_ROUND := Round(ZeroPage, ZeroPage, ZeroPage)

  lemma SbcRoundIsRound(mem: Memory, at: int, i: byte)
    requires 0 <= at && at + 6 <= RESERVED_START && i < 0x10 && SbcRound(mem, at, i)
    ensures Instruction(mem, at, LDA, ZeroPage, 0xC0 + i)
    ensures Instruction(mem, at + 2, SBC, ZeroPage, 0xB0 + i)
    ensures Instruction(mem, at + 4, STA, ZeroPage, 0xC2 + i)
  {
  }

  lemma SbcRoundsAreChain(mem: Memory, base: word)
    requires 0x100 <= base && base + 12 <= RESERVED_START && SbcRound(mem, base, 0) && SbcRound(mem, base + 6, 1)
    ensures Size([ZERO_PAGE_ROUND, ZERO_PAGE_ROUND]) == 12
    ensures ChainProgram(mem, base, [ZERO_PAGE_ROUND, ZERO_PAGE_ROUND], SBC, 0xC0, 0xB0, 0xC2)
    ensures ChainPlaced(PLAIN_BUS, base, [ZERO_PAGE_ROUND, ZERO_PAGE_ROUND], 0xC0, 0xB0, 0xC2)
  {
    var rounds := [ZERO_PAGE_ROUND, ZERO_PAGE_ROUND];
    SbcRoundIsRound(mem, base, 0);
    SbcRoundIsRound(mem, base + 6, 1);
    hide Instruction, SbcRound;
    assert rounds[1..] == [ZERO_PAGE_ROUND] && rounds[1..][1..] == [];
    assert Size(rounds[1..]) == 6 + Size([]);
    assert ChainProgram(mem, base + 12, [], SBC, 0xC2, 0xB2, 0xC4);
    assert ChainProgram(mem, base + 6, rounds[1..], SBC, 0xC1, 0xB1, 0xC3);
  }

  /** 0x300 - 0xFF in two bytes of the zero page is 0x201: the low byte borrows from the high one. */
  lemma TwoByteSbc(s: State, base: word)
    requires 0x100 <= base && base + 12 <= RESERVED_START && AtPc(PLAIN_BUS, s, base)
    requires SbcRound(s.core.mem, base, 0) && SbcRound(s.core.mem, base + 6, 1) && s.core.p.c
    requires s.core.mem[0xC0] == 0x00 && s.core.mem[0xC1] == 0x03
    requires s.core.mem[0xB0] == 0xFF && s.core.mem[0xB1] == 0x00
    ensures var r := Run(PLAIN_BUS, s, 6);
            && r.Running? && r.state.core.p.c
            && r.state.core.mem[0xC2] == 0x01 && r.state.core.mem[0xC3] == 0x02
  {
    hide Run, AtPc, SbcRound, ChainProgram, ChainPlaced, Num, Power, Size;
    SbcRoundsAreChain(s.core.mem, base);
    TwoBytes(s.core.mem, 0xC0);
    TwoBytes(s.core.mem, 0xB0);
    ChainedSbc(PLAIN_BUS, s, base, [ZERO_PAGE_ROUND, ZERO_PAGE_ROUND], 0xC0, 0xB0, 0xC2);
    TwoBytes(Run(PLAIN_BUS, s, 6).state.core.mem, 0xC2);
  }

  lemma TwoBytes(mem: Memory, addr: int)
    requires 0 <= addr && addr + 2 <= 0x1_0000
    ensures Num(mem, addr, 2) == 0x100 * (mem[addr + 1] as int) + mem[addr]
  {
    assert Num(mem, addr + 1, 1) == 0x100 * Num(mem, addr + 2, 0) + mem[addr + 1];
  }

  lemma ChainRegions(bus: Bus, base: int, rounds: seq<Round>, a: int, b: int, r: int)
    requires ChainPlaced(bus, base, rounds, a, b, r)
    ensures 0 <= base && base + Size(rounds) <= RESERVED_START
    ensures 0 <= a && a + |rounds| <= 0x1_0000
    ensures 0 <= b && b + |rounds| <= 0x1_0000
    ensures 0 <= r && r + |rounds| <= 0x1_0000
  {
    hide Plain;
  }

  // ---------- shifts and rotates ----------

  function FillBit(op: Mnemonic, c: bool): int {
    if Rotates(op) && c then 1 else 0
  }

  /** One shift in memory, as one equation on the byte, the bit that goes in and the bit that comes out. */
  lemma ShiftByte(bus: Bus, s: State, at: word, op: Mnemonic, mode: AddrMode, operand: word)
    requires at < RESERVED_START && AtPc(bus, s, at) && PlainRange(bus, at, Length(mode)) && Plain(bus, operand)
    requires ShiftsLeft(op) || ShiftsRight(op)
    requires Instruction(s.core.mem, at, op, mode, operand) && operand != at && operand != INVALID_ADDRESS
    ensures Step(bus, s).Running?
    ensures var s' := Step(bus, s).state;
            var v, v' := s.core.mem[operand], s'.core.mem[operand];
            && AtPc(bus, s', at + Length(mode)) && s'.core.mem == s.core.mem[operand := v']
            && if ShiftsLeft(op) then v' + 0x100 * Carry(s'.core.p) == 2 * v + FillBit(op, s.core.p.c)
               else 2 * v' + Carry(s'.core.p) == v + 0x100 * FillBit(op, s.core.p.c)
  {
    hide Decode, Addr, NextPc, Step, Effect, ShiftMem;
    DirectStep(bus, s, at, op, mode, operand);
    var here := Here(s, at);
    var left, fill := ShiftsLeft(op), FillBit(op, s.core.p.c) == 1;
    ShiftEffect(bus, here, op, mode, left, fill);
    ShiftCell(bus, s.core, operand, left, fill);
  }

  lemma ShiftEffect(bus: Bus, s: State, op: Mnemonic, mode: AddrMode, left: bool, fill: bool)
    requires ShiftsLeft(op) || ShiftsRight(op)
    requires left == ShiftsLeft(op) && fill == (Rotates(op) && s.core.p.c)
    requires Addr(bus, s, mode) != INVALID_ADDRESS
    ensures Effect(bus, s, op, mode) == ShiftMem(bus, s.core, Addr(bus, s, mode), left, fill)
  {
    hide Addr, ShiftMem, Effect;
    ShiftIs(bus, s, op, mode);
  }

  lemma ShiftCell(bus: Bus, c: Core, addr: word, left: bool, fill: bool)
    requires Plain(bus, addr)
    ensures var c' := ShiftMem(bus, c, addr, left, fill);
            var v: int := c.mem[addr];
            var v' := Shifted(v, left, fill);
            && c'.mem == c.mem[addr := v']
            && if left then v' + 0x100 * Carry(c'.p) == 2 * v + (if fill then 1 else 0)
               else 2 * v' + Carry(c'.p) == v + (if fill then 0x100 else 0)
  {
    PlainRead(bus, c.mem, addr);
  }

  function Span(modes: seq<AddrMode>): nat {
    if modes == [] then 0 else Length(modes[0]) + Span(modes[1..])
  }

  /** ROL of each byte from address x upwards. */
  ghost predicate RolProgram(mem: Memory, base: int, modes: seq<AddrMode>, x: int)
    requires 0 <= base && base + Span(modes) <= RESERVED_START && 0 <= x && x + |modes| <= 0x1_0000
    decreases |modes|
  {
    modes != [] ==>
      Instruction(mem, base, ROL, modes[0], x) && RolProgram(mem, base + Length(modes[0]), modes[1..], x + 1)
  }

  /** ROR of each byte from address x + |modes| - 1 downwards. */
  ghost predicate RorProgram(mem: Memory, base: int, modes: seq<AddrMode>, x: int)
    requires 0 <= base && base + Span(modes) <= RESERVED_START && 0 <= x && x + |modes| <= 0x1_0000
    decreases |modes|
  {
    modes != [] ==>
      && Instruction(mem, base, ROR, modes[0], x + |modes| - 1)
      && RorProgram(mem, base + Length(modes[0]), modes[1..], x)
  }

  /** Program and number lie apart where no hook acts, and the number stays below 0xFFFF. */
  ghost predicate ShiftPlaced(bus: Bus, base: int, modes: seq<AddrMode>, x: int) {
    && PlainRange(bus, base, Span(modes)) && base + Span(modes) <= RESERVED_START
    && PlainRange(bus, x, |modes|) && x + |modes| < 0x1_0000
    && (x + |modes| <= base || base + Span(modes) <= x)
  }

  lemma {:induction false} RolDepends(mem: Memory, mem': Memory, base: int, modes: seq<AddrMode>, x: int)
    requires 0 <= base && base + Span(modes) <= RESERVED_START && 0 <= x && x + |modes| <= 0x1_0000
    requires RolProgram(mem, base, modes, x) && forall y :: base <= y < base + Span(modes) ==> mem[y] == mem'[y]
    ensures RolProgram(mem', base, modes, x)
    decreases |modes|
  {
    hide Decode, LowByte, HighByte;
    if modes != [] {
      RolDepends(mem, mem', base + Length(modes[0]), modes[1..], x + 1);
    }
  }

  lemma {:induction false} RorDepends(mem: Memory, mem': Memory, base: int, modes: seq<AddrMode>, x: int)
    requires 0 <= base && base + Span(modes) <= RESERVED_START && 0 <= x && x + |modes| <= 0x1_0000
    requires RorProgram(mem, base, modes, x) && forall y :: base <= y < base + Span(modes) ==> mem[y] == mem'[y]
    ensures RorProgram(mem', base, modes, x)
    decreases |modes|
  {
    hide Decode, LowByte, HighByte;
    if modes != [] {
      RorDepends(mem, mem', base + Length(modes[0]), modes[1..], x);
    }
  }

  /** Nothing outside [x, x + n) has changed. */
  ghost predicate SameOutside(mem: Memory, mem': Memory, x: int, n: nat) {
    forall y :: 0 <= y < 0x1_0000 && !(x <= y < x + n) ==> mem'[y] == mem[y]
  }

  /** The first shift of a program, at any cell of the number. */
  lemma FirstShift(bus: Bus, s: State, base: int, modes: seq<AddrMode>, x: int, op: Mnemonic, cell: int)
    requires modes != [] && ShiftPlaced(bus, base, modes, x) && AtPc(bus, s, base)
    requires ShiftsLeft(op) || ShiftsRight(op)
    requires x <= cell < x + |modes| && Instruction(s.core.mem, base, op, modes[0], cell)
    ensures Step(bus, s).Running?
    ensures var s' := Step(bus, s).state;
            var v, v' := s.core.mem[cell], s'.core.mem[cell];
            && AtPc(bus, s', base + Length(modes[0])) && s'.core.mem == s.core.mem[cell := v']
            && (ShiftsLeft(op) ==> v' + 0x100 * Carry(s'.core.p) == 2 * v + FillBit(op, s.core.p.c))
            && (ShiftsRight(op) ==> 2 * v' + Carry(s'.core.p) == v + 0x100 * FillBit(op, s.core.p.c))
  {
    hide Step, AtPc, Instruction, Plain, Length, FillBit;
    SubRange(bus, base, Span(modes), base, Length(modes[0]));
    assert Plain(bus, cell);
    ShiftByte(bus, s, base, op, modes[0], cell);
  }

  lemma ShiftTail(bus: Bus, base: int, modes: seq<AddrMode>, x: int, x': int)
    requires modes != [] && ShiftPlaced(bus, base, modes, x) && x <= x' <= x + 1
    ensures ShiftPlaced(bus, base + Length(modes[0]), modes[1..], x')
  {
    hide Plain, Length;
  }

  /** Chained ROL doubles an n-byte number, taking the carry in at the bottom and out at the top. */
  lemma {:induction false} ChainedRol(bus: Bus, s: State, base: int, modes: seq<AddrMode>, x: int)
    requires ShiftPlaced(bus, base, modes, x) && RolProgram(s.core.mem, base, modes, x) && AtPc(bus, s, base)
    ensures Run(bus, s, |modes|).Running?
    ensures var s', n := Run(bus, s, |modes|).state, |modes|;
            && AtPc(bus, s', base + Span(modes)) && SameOutside(s.core.mem, s'.core.mem, x, n)
            && Num(s'.core.mem, x, n) + Power(n) * Carry(s'.core.p) ==
               2 * Num(s.core.mem, x, n) + Carry(s.core.p)
    decreases |modes|
  {
    hide Step, AtPc, Instruction, Plain, Length;
    if modes != [] {
      LeftFirst(bus, s, base, modes, x, ROL);
    }
  }

  /** A left shift of the lowest byte and ROL of the others. */
  lemma {:induction false} LeftFirst(bus: Bus, s: State, base: int, modes: seq<AddrMode>, x: int, op: Mnemonic)
    requires modes != [] && ShiftPlaced(bus, base, modes, x) && AtPc(bus, s, base) && ShiftsLeft(op)
    requires Instruction(s.core.mem, base, op, modes[0], x)
    requires RolProgram(s.core.mem, base + Length(modes[0]), modes[1..], x + 1)
    ensures Run(bus, s, |modes|).Running?
    ensures var s', n := Run(bus, s, |modes|).state, |modes|;
            && AtPc(bus, s', base + Span(modes)) && SameOutside(s.core.mem, s'.core.mem, x, n)
            && Num(s'.core.mem, x, n) + Power(n) * Carry(s'.core.p) ==
               2 * Num(s.core.mem, x, n) + FillBit(op, s.core.p.c)
    decreases |modes|, 0
  {
    hide Step, AtPc, Instruction, Plain, Length, ShiftsRight;
    var base', n := base + Length(modes[0]), |modes|;
    FirstShift(bus, s, base, modes, x, op, x);
    var s1 := Step(bus, s).state;
    RolDepends(s.core.mem, s1.core.mem, base', modes[1..], x + 1);
    ShiftTail(bus, base, modes, x, x + 1);
    ChainedRol(bus, s1, base', modes[1..], x + 1);
    NumDepends(s.core.mem, s1.core.mem, x + 1, n - 1);
    var s' := Run(bus, s1, n - 1).state;
    assert Power(n) * Carry(s'.core.p) == 0x100 * (Power(n - 1) * Carry(s'.core.p));
  }

  /** The top byte of a number carries the highest power. */
  lemma {:induction false} NumTop(mem: Memory, addr: int, n: nat)
    requires n > 0 && 0 <= addr && addr + n <= 0x1_0000
    ensures Num(mem, addr, n) == Num(mem, addr, n - 1) + Power(n - 1) * mem[addr + n - 1]
    decreases n
  {
    if n > 1 {
      NumTop(mem, addr + 1, n - 1);
      assert 0x100 * (Power(n - 2) * mem[addr + n - 1]) == Power(n - 1) * mem[addr + n - 1];
    }
  }

  /** Chained ROR from the top byte down halves it: the carry in becomes the top bit, the lowest bit comes out. */
  lemma {:induction false} ChainedRor(bus: Bus, s: State, base: int, modes: seq<AddrMode>, x: int)
    requires ShiftPlaced(bus, base, modes, x) && RorProgram(s.core.mem, base, modes, x) && AtPc(bus, s, base)
    ensures Run(bus, s, |modes|).Running?
    ensures var s', n := Run(bus, s, |modes|).state, |modes|;
            && AtPc(bus, s', base + Span(modes)) && SameOutside(s.core.mem, s'.core.mem, x, n)
            && 2 * Num(s'.core.mem, x, n) + Carry(s'.core.p) ==
               Num(s.core.mem, x, n) + Power(n) * Carry(s.core.p)
    decreases |modes|
  {
    hide Step, AtPc, Instruction, Plain, Length;
    if modes != [] {
      RightFirst(bus, s, base, modes, x, ROR);
    }
  }

  /** A right shift of the top byte and ROR of the others. */
  lemma {:induction false} RightFirst(bus: Bus, s: State, base: int, modes: seq<AddrMode>, x: int, op: Mnemonic)
    requires modes != [] && ShiftPlaced(bus, base, modes, x) && AtPc(bus, s, base) && ShiftsRight(op)
    requires Instruction(s.core.mem, base, op, modes[0], x + |modes| - 1)
    requires RorProgram(s.core.mem, base + Length(modes[0]), modes[1..], x)
    ensures Run(bus, s, |modes|).Running?
    ensures var s', n := Run(bus, s, |modes|).state, |modes|;
            && AtPc(bus, s', base + Span(modes)) && SameOutside(s.core.mem, s'.core.mem, x, n)
            && 2 * Num(s'.core.mem, x, n) + Carry(s'.core.p) ==
               Num(s.core.mem, x, n) + Power(n) * FillBit(op, s.core.p.c)
    decreases |modes|, 0
  {
    hide Step, AtPc, Instruction, Plain, Length, FillBit, Num, Power, Carry, ShiftsLeft, ShiftsRight;
    var base', n := base + Length(modes[0]), |modes|;
    FirstShift(bus, s, base, modes, x, op, x + n - 1);
    var s1 := Step(bus, s).state;
    RorDepends(s.core.mem, s1.core.mem, base', modes[1..], x);
    ShiftTail(bus, base, modes, x, x);
    ChainedRor(bus, s1, base', modes[1..], x);
    var s' := Run(bus, s1, n - 1).state;
    assert Run(bus, s, n) == Run(bus, s1, n - 1);
    HalvedTop(s.core.mem, s1.core.mem, s'.core.mem, x, n,
              FillBit(op, s.core.p.c), Carry(s1.core.p), Carry(s'.core.p));
  }

  lemma HalvedTop(mem: Memory, mem1: Memory, mem': Memory, x: int, n: nat, c0: int, c1: int, c2: int)
    requires n > 0 && 0 <= x && x + n <= 0x1_0000
    requires forall y :: x <= y < x + n - 1 ==> mem1[y] == mem[y]
    requires mem'[x + n - 1] == mem1[x + n - 1]
    requires 2 * mem1[x + n - 1] + c1 == mem[x + n - 1] + 0x100 * c0
    requires 2 * Num(mem', x, n - 1) + c2 == Num(mem1, x, n - 1) + Power(n - 1) * c1
    ensures 2 * Num(mem', x, n) + c2 == Num(mem, x, n) + Power(n) * c0
  {
    NumDepends(mem, mem1, x, n - 1);
    NumTop(mem, x, n);
    NumTop(mem', x, n);
    TopAndRest(Power(n - 1), mem'[x + n - 1], c1, mem[x + n - 1], c0,
               Num(mem', x, n - 1), c2, Num(mem, x, n - 1));
  }

  lemma TopAndRest(power: int, top': int, c1: int, top: int, c0: int, rest': int, c2: int, rest: int)
    requires 2 * top' + c1 == top + 0x100 * c0
    requires 2 * rest' + c2 == rest + power * c1
    ensures 2 * (rest' + power * top') + c2 == rest + power * top + 0x100 * power * c0
  {
    assert power * (2 * top' + c1) == power * (top + 0x100 * c0);
  }

  /** ASL of the lowest byte and ROL of the others double the number whatever the carry was. */
  lemma AslThenRol(bus: Bus, s: State, base: int, modes: seq<AddrMode>, x: int)
    requires modes != [] && ShiftPlaced(bus, base, modes, x) && AtPc(bus, s, base)
    requires Instruction(s.core.mem, base, ASL, modes[0], x)
    requires RolProgram(s.core.mem, base + Length(modes[0]), modes[1..], x + 1)
    ensures Run(bus, s, |modes|).Running?
    ensures var s', n := Run(bus, s, |modes|).state, |modes|;
            && AtPc(bus, s', base + Span(modes)) && SameOutside(s.core.mem, s'.core.mem, x, n)
            && Num(s'.core.mem, x, n) + Power(n) * Carry(s'.core.p) == 2 * Num(s.core.mem, x, n)
  {
    hide Run, AtPc, Instruction, ShiftPlaced, RolProgram, Num, SameOutside;
    ShiftRegion(bus, base, modes, x);
    LeftFirst(bus, s, base, modes, x, ASL);
  }

  /** LSR of the top byte and ROR of the others halve it; the carry is the remainder. */
  lemma LsrThenRor(bus: Bus, s: State, base: int, modes: seq<AddrMode>, x: int)
    requires modes != [] && ShiftPlaced(bus, base, modes, x) && AtPc(bus, s, base)
    requires Instruction(s.core.mem, base, LSR, modes[0], x + |modes| - 1)
    requires RorProgram(s.core.mem, base + Length(modes[0]), modes[1..], x)
    ensures Run(bus, s, |modes|).Running?
    ensures var s', n := Run(bus, s, |modes|).state, |modes|;
            && AtPc(bus, s', base + Span(modes)) && SameOutside(s.core.mem, s'.core.mem, x, n)
            && 2 * Num(s'.core.mem, x, n) + Carry(s'.core.p) == Num(s.core.mem, x, n)
  {
    hide Run, AtPc, Instruction, ShiftPlaced, RorProgram, Num, SameOutside;
    ShiftRegion(bus, base, modes, x);
    RightFirst(bus, s, base, modes, x, LSR);
  }

  lemma ShiftRegion(bus: Bus, base: int, modes: seq<AddrMode>, x: int)
    requires ShiftPlaced(bus, base, modes, x)
    ensures 0 <= base && base + Span(modes) <= RESERVED_START && 0 <= x && x + |modes| <= 0x1_0000
  {
    hide Plain;
  }

  // ---------- rotations of the accumulator ----------

  function Rol(c: Core): Core { ShiftAcc(c, true, c.p.c) }

  function Ror(c: Core): Core { ShiftAcc(c, false, c.p.c) }

  // The nine bits that rotate: the carry above the accumulator.
  function NineBits(c: Core): int { 0x100 * Carry(c.p) + c.a }

  function RolTimes(c: Core, n: nat): Core
    decreases n
  {
    if n == 0 then c else RolTimes(Rol(c), n - 1)
  }

  function Turn(w: int): int { if w >= 0x100 then 2 * w - 0x1FF else 2 * w }

  function TurnBack(w: int): int { if w % 2 == 1 then w / 2 + 0x100 else w / 2 }

  lemma RolTurns(c: Core)
    ensures NineBits(Rol(c)) == Turn(NineBits(c))
    ensures NineBits(Ror(c)) == TurnBack(NineBits(c))
  {
  }

  lemma NineBitsRange(c: Core)
    ensures 0 <= NineBits(c) < 0x200
  {
  }

  lemma TurnsInverse(w: int)
    requires 0 <= w < 0x200
    ensures TurnBack(Turn(w)) == w && Turn(TurnBack(w)) == w
  {
  }

  /** ROL and ROR of the accumulator undo each other on carry and accumulator together. */
  lemma RolRorInverse(c: Core)
    ensures NineBits(Ror(Rol(c))) == NineBits(c) && NineBits(Rol(Ror(c))) == NineBits(c)
  {
    hide Rol, Ror, NineBits, Turn, TurnBack;
    RolTurns(c);
    RolTurns(Rol(c));
    RolTurns(Ror(c));
    NineBitsRange(c);
    TurnsInverse(NineBits(c));
  }

  /** Three turns take the top octal digit of the nine bits to the bottom. */
  lemma ThreeTurns(high: int, mid: int, low: int)
    requires 0 <= high < 8 && 0 <= mid < 8 && 0 <= low < 8
    ensures Turn(Turn(Turn(0x40 * high + 8 * mid + low))) == 0x40 * mid + 8 * low + high
  {
    assert high == 0 || high == 1 || high == 2 || high == 3 || high == 4 || high == 5 || high == 6 || high == 7;
  }

  lemma NineTurns(w: int)
    requires 0 <= w < 0x200
    ensures Turn(Turn(Turn(Turn(Turn(Turn(Turn(Turn(Turn(w))))))))) == w
  {
    hide Turn;
    var high, mid, low := w / 0x40, w % 0x40 / 8, w % 8;
    assert w == 0x40 * high + 8 * mid + low;
    ThreeTurns(high, mid, low);
    ThreeTurns(mid, low, high);
    ThreeTurns(low, high, mid);
  }

  lemma ThreeRols(c: Core, n: nat)
    ensures RolTimes(c, n + 3) == RolTimes(Rol(Rol(Rol(c))), n)
    ensures NineBits(Rol(Rol(Rol(c)))) == Turn(Turn(Turn(NineBits(c))))
  {
    hide Rol, NineBits, Turn;
    RolTurns(c);
    RolTurns(Rol(c));
    RolTurns(Rol(Rol(c)));
    assert RolTimes(Rol(c), n + 2) == RolTimes(Rol(Rol(c)), n + 1);
  }

  /** Nine ROLs of the accumulator bring every bit and the carry back. */
  lemma NineRolsIdentity(c: Core)
    ensures NineBits(RolTimes(c, 9)) == NineBits(c)
  {
    hide Rol, NineBits, Turn;
    var c3 := Rol(Rol(Rol(c)));
    var c6 := Rol(Rol(Rol(c3)));
    ThreeRols(c, 6);
    ThreeRols(c3, 3);
    ThreeRols(c6, 0);
    NineBitsRange(c);
    NineTurns(NineBits(c));
  }
}
