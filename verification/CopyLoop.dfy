/**
 * Programs with branches: a comparison and the branch after it, and the loop that copies a block of memory
 * through an index register, in every indexed mode.
 */
module CopyLoops {
  import opened Bytes
  import opened Opcodes
  import opened Machine
  import opened StatusRegister
  import opened Programs
  import opened InstructionFacts

  // ---------- a comparison and a branch ----------

  /** Where a branch instruction goes: its operand is a signed distance from the instruction behind it. */
  function BranchTo(at: word, distance: byte): word {
    (at + 2 + (if distance < 0x80 then distance else distance - 0x100)) % 0x1_0000
  }

  lemma BranchStep(bus: Bus, s: State, at: word, branch: Mnemonic, distance: byte)
    requires at < RESERVED_START && AtPc(bus, s, at) && PlainRange(bus, at, 2)
    requires TestsComparison(branch) && Code(s.core.mem, at, branch, Relative, distance)
    ensures Step(bus, s).Running? && Step(bus, s).state.core == s.core
    ensures var to := BranchTo(at, distance);
            AtPc(bus, Step(bus, s).state, if Taken(s.core.p, branch) && to != INVALID_ADDRESS then to else at + 2)
  {
    var here := Here(s, at);
    BranchTarget(bus, here, branch, distance);
    BranchKeepsCore(bus, here, branch);
    CodeStep(bus, s, at, branch, Relative, distance);
    if Taken(s.core.p, branch) && BranchTo(at, distance) == INVALID_ADDRESS {
      hide Decode, Step, Effect, Taken, Target, Plain;
      LengthThere(bus, Exec(bus, here, branch, Relative), Relative);
    }
  }

  lemma BranchTarget(bus: Bus, s: State, branch: Mnemonic, distance: byte)
    requires s.pc < RESERVED_START && PlainRange(bus, s.pc, 2)
    requires TestsComparison(branch) && Code(s.core.mem, s.pc, branch, Relative, distance)
    ensures Target(bus, s, branch, Relative) == BranchTo(s.pc, distance)
  {
    hide Addr, MemRead, Code;
    OperandAddresses(bus, s);
    CodeIsRead(bus, s, branch, Relative, distance);
  }

  lemma BranchKeepsCore(bus: Bus, s: State, branch: Mnemonic)
    requires TestsComparison(branch)
    ensures Effect(bus, s, branch, Relative) == s.core
  {
  }

  /**
   * A comparison in any mode and a branch behind it: after two steps the machine is at the target exactly
   * when register and operand stand as the branch asks (and the target is not 0xFFFF), else behind the branch.
   */
  lemma CompareAndBranch(bus: Bus, s: State, at: word, op: Mnemonic, mode: AddrMode, operand: word,
                         branch: Mnemonic, distance: byte)
    requires at + Length(mode) < RESERVED_START && AtPc(bus, s, at) && PlainRange(bus, at, Length(mode) + 2)
    requires Compares(op) && Code(s.core.mem, at, op, mode, operand)
    requires TestsComparison(branch) && Code(s.core.mem, at + Length(mode), branch, Relative, distance)
    ensures Run(bus, s, 2).Running?
    ensures var s', to := Run(bus, s, 2).state, BranchTo(at + Length(mode), distance);
            var stand := Stand(branch, Compared(s.core, op), Operand(bus, Here(s, at), mode));
            && s'.core == s.core.(p := s'.core.p)
            && AtPc(bus, s', if stand && to != INVALID_ADDRESS then to else at + Length(mode) + 2)
  {
    hide Step, AtPc, Code, Plain, Length, Operand, Stand, Compared, Compares, TestsComparison, BranchTo, Taken;
    SubRange(bus, at, Length(mode) + 2, at, Length(mode));
    SubRange(bus, at, Length(mode) + 2, at + Length(mode), 2);
    CompareStep(bus, s, at, op, mode, operand);
    var s1 := Step(bus, s).state;
    BranchAfterCompare(bus, Here(s, at), op, mode, branch);
    BranchStep(bus, s1, at + Length(mode), branch, distance);
    TwoSteps(bus, s);
  }

  lemma CompareStep(bus: Bus, s: State, at: word, op: Mnemonic, mode: AddrMode, operand: word)
    requires at < RESERVED_START && AtPc(bus, s, at) && PlainRange(bus, at, Length(mode))
    requires Compares(op) && Code(s.core.mem, at, op, mode, operand)
    ensures Step(bus, s).Running?
    ensures var s' := Step(bus, s).state;
            && AtPc(bus, s', at + Length(mode))
            && s'.core == Effect(bus, Here(s, at), op, mode) == s.core.(p := s'.core.p)
  {
    hide Step, AtPc, Code, Length, Effect, Operand;
    CompareEffects(bus, Here(s, at), op, mode);
    NotTaken(s.core.p, op);
    CodeStep(bus, s, at, op, mode, operand);
  }

  lemma TwoSteps(bus: Bus, s: State)
    requires Step(bus, s).Running?
    ensures Run(bus, s, 2) == Step(bus, Step(bus, s).state)
  {
    hide Step;
    OneStep(bus, Step(bus, s).state);
  }

  // ---------- the copy loop ----------

  // The instructions that fill, step and compare an index register.
  predicate IsIndex(r: Reg) { r == RegX || r == RegY }

  function Index(c: Core, r: Reg): byte { if r == RegX then c.x else c.y }

  function LoadIndex(r: Reg): Mnemonic { if r == RegX then LDX else LDY }

  function StepIndex(r: Reg): Mnemonic { if r == RegX then INX else INY }

  function CompareIndex(r: Reg): Mnemonic { if r == RegX then CPX else CPY }

  // An operand that names a block of memory through the index register.
  datatype Block = Block(mode: AddrMode, operand: word)

  /** The block starts at an address: the operand itself, or the pointer in the two cells it names. */
  predicate StartsAt(mem: Memory, r: Reg, b: Block, start: word) {
    match b.mode
    case ZeroPageX | AbsoluteX => r == RegX && start == b.operand
    case ZeroPageY | AbsoluteY => r == RegY && start == b.operand
    case IndirectIndexed =>
      r == RegY && b.operand < 0x100 && mem[b.operand] == start % 0x100 && mem[b.operand + 1] == start / 0x100
    case _ => false
  }

  function PointerSize(b: Block): nat { if b.mode == IndirectIndexed then 2 else 0 }

  lemma OperandIsAddress(bus: Bus, s: State)
    ensures Addr(bus, s, ZeroPage) == OperandByte(bus, s) && Addr(bus, s, Absolute) == OperandWord(bus, s)
  {
    hide MemRead;
  }

  lemma PointerWord(bus: Bus, mem: Memory, operand: word, start: word)
    requires operand < 0xFFFF && PlainRange(bus, operand, 2)
    requires mem[operand] == start % 0x100 && mem[operand + 1] == start / 0x100
    ensures WordThere(bus, mem, operand) == start
  {
    hide Plain, MemRead;
    PlainRead(bus, mem, operand);
    PlainRead(bus, mem, operand + 1);
  }

  lemma PointerAddress(bus: Bus, s: State, operand: word, start: word)
    requires OperandByte(bus, s) == operand && PlainRange(bus, operand, 2)
    requires s.core.mem[operand] == start % 0x100 && s.core.mem[operand + 1] == start / 0x100
    requires start + s.core.y < 0x1_0000
    ensures Addr(bus, s, IndirectIndexed) == start + s.core.y
  {
    hide Addr, PlainRange, WordThere, MemRead;
    IndirectAddresses(bus, s);
    OperandIsAddress(bus, s);
    PointerWord(bus, s.core.mem, operand, start);
  }

  /** The address that an instruction of the loop reads or writes: the start plus the index. */
  lemma BlockAddress(bus: Bus, s: State, op: Mnemonic, r: Reg, b: Block, start: word)
    requires s.pc < RESERVED_START && PlainRange(bus, s.pc, Length(b.mode))
    requires Code(s.core.mem, s.pc, op, b.mode, b.operand) && StartsAt(s.core.mem, r, b, start)
    requires PlainRange(bus, b.operand, PointerSize(b)) && start + Index(s.core, r) < 0x1_0000
    ensures Addr(bus, s, b.mode) == start + Index(s.core, r)
  {
    hide Addr, Code, PlainRange, OperandByte, OperandWord;
    CodeIsRead(bus, s, op, b.mode, b.operand);
    if b.mode == IndirectIndexed {
      PointerAddress(bus, s, b.operand, start);
    } else {
      OperandIsAddress(bus, s);
      IndexedAddresses(bus, s);
    }
  }

  /**
   * The loop at base, with index register r: r := 0, then load a byte, store it, r := r + 1, and again
   * until r == n. It copies from src to dst.
   */
  datatype Loop = Loop(base: word, r: Reg, from: Block, to: Block, n: byte, src: word, dst: word)

  function LoadAt(l: Loop): int { l.base + 2 }

  function StoreAt(l: Loop): int { LoadAt(l) + Length(l.from.mode) }

  function StepAt(l: Loop): int { StoreAt(l) + Length(l.to.mode) }

  function CompareAt(l: Loop): int { StepAt(l) + 1 }

  function BranchAt(l: Loop): int { CompareAt(l) + 2 }

  function End(l: Loop): int { BranchAt(l) + 2 }

  // How many bytes it copies: 256 when the index has to come round to 0.
  function Count(l: Loop): int { if l.n == 0 then 0x100 else l.n }

  /** LDX #0; LDA from; STA to; INX; CPX #n; BNE back to the LDA. The same with Y. */
  predicate CopyCode(mem: Memory, l: Loop)
    requires End(l) <= RESERVED_START
  {
    && IsIndex(l.r)
    && Code(mem, l.base, LoadIndex(l.r), Immediate, 0)
    && Code(mem, LoadAt(l), LDA, l.from.mode, l.from.operand)
    && Code(mem, StoreAt(l), STA, l.to.mode, l.to.operand)
    && Code(mem, StepAt(l), StepIndex(l.r), Implied, 0)
    && Code(mem, CompareAt(l), CompareIndex(l.r), Immediate, l.n)
    && Code(mem, BranchAt(l), BNE, Relative, 0x100 - (End(l) - LoadAt(l)))
  }

  predicate Disjoint(addr: int, n: int, addr': int, n': int) { addr + n <= addr' || addr' + n' <= addr }

  /**
   * No hook acts on what the loop touches; the destination is apart from the program and the pointers, and
   * does not run ahead of the source.
   */
  ghost predicate Placed(bus: Bus, l: Loop) {
    && PlainRange(bus, l.base, End(l) - l.base) && End(l) <= RESERVED_START
    && PlainRange(bus, l.src, Count(l)) && PlainRange(bus, l.dst, Count(l))
    && PlainRange(bus, l.from.operand, PointerSize(l.from)) && PlainRange(bus, l.to.operand, PointerSize(l.to))
    && Disjoint(l.dst, Count(l), l.base, End(l) - l.base)
    && Disjoint(l.dst, Count(l), l.from.operand, PointerSize(l.from))
    && Disjoint(l.dst, Count(l), l.to.operand, PointerSize(l.to))
    && !(l.src < l.dst < l.src + Count(l))
  }

  /** Program and pointers are in memory. */
  ghost predicate Ready(mem: Memory, l: Loop)
    requires End(l) <= RESERVED_START
  {
    CopyCode(mem, l) && StartsAt(mem, l.r, l.from, l.src) && StartsAt(mem, l.r, l.to, l.dst)
  }

  // ---------- the steps of one round ----------

  // All but the loop's own index register, the accumulator, the status and the memory.
  predicate Spares(c: Core, c': Core, r: Reg) {
    c'.sp == c.sp && if r == RegX then c'.y == c.y else c'.x == c.x
  }

  lemma CodeApart(mem: Memory, l: Loop, cell: int, v: byte, at: int, op: Mnemonic, mode: AddrMode, operand: int)
    requires End(l) <= RESERVED_START && 0 <= cell < 0x1_0000 && (cell < l.base || End(l) <= cell)
    requires l.base <= at && at + Length(mode) <= End(l) && 0 <= operand < 0x1_0000
    requires Code(mem, at, op, mode, operand)
    ensures Code(mem[cell := v], at, op, mode, operand)
  {
    hide Code, Length;
    CodeDepends(mem, mem[cell := v], at, op, mode, operand);
  }

  lemma StoreKeepsCode(mem: Memory, l: Loop, cell: int, v: byte)
    requires End(l) <= RESERVED_START && 0 <= cell < 0x1_0000 && (cell < l.base || End(l) <= cell)
    requires CopyCode(mem, l)
    ensures CopyCode(mem[cell := v], l)
  {
    hide Code;
    CodeApart(mem, l, cell, v, l.base, LoadIndex(l.r), Immediate, 0);
    CodeApart(mem, l, cell, v, LoadAt(l), LDA, l.from.mode, l.from.operand);
    CodeApart(mem, l, cell, v, StoreAt(l), STA, l.to.mode, l.to.operand);
    CodeApart(mem, l, cell, v, StepAt(l), StepIndex(l.r), Implied, 0);
    CodeApart(mem, l, cell, v, CompareAt(l), CompareIndex(l.r), Immediate, l.n);
    CodeApart(mem, l, cell, v, BranchAt(l), BNE, Relative, 0x100 - (End(l) - LoadAt(l)));
  }

  lemma StoreKeepsReady(bus: Bus, mem: Memory, l: Loop, i: int, v: byte)
    requires Placed(bus, l) && Ready(mem, l) && 0 <= i < Count(l)
    ensures Ready(mem[l.dst + i := v], l)
  {
    hide Plain, CopyCode, Length;
    StoreKeepsCode(mem, l, l.dst + i, v);
  }

  lemma ImmediateByte(bus: Bus, s: State, op: Mnemonic, v: byte)
    requires s.pc < RESERVED_START && PlainRange(bus, s.pc, 2) && Code(s.core.mem, s.pc, op, Immediate, v)
    ensures MemRead(bus, s.core.mem, Addr(bus, s, Immediate)) == v && Operand(bus, s, Immediate) == v
  {
    hide MemRead, Code;
    CodeIsRead(bus, s, op, Immediate, v);
  }

  lemma InitStep(bus: Bus, s: State, l: Loop)
    requires Placed(bus, l) && Ready(s.core.mem, l) && AtPc(bus, s, l.base)
    ensures Step(bus, s).Running?
    ensures var s' := Step(bus, s).state;
            && AtPc(bus, s', LoadAt(l)) && Index(s'.core, l.r) == 0 && s'.core.mem == s.core.mem
            && Spares(s.core, s'.core, l.r)
  {
    hide Code, AtPc, Step, Effect, Addr, Operand, MemRead, Plain, Signs;
    var here := Here(s, l.base);
    SubRange(bus, l.base, End(l) - l.base, l.base, 2);
    ImmediateByte(bus, here, LoadIndex(l.r), 0);
    LoadEffects(bus, here, Immediate);
    NotTaken(s.core.p, LoadIndex(l.r));
    CodeStep(bus, s, l.base, LoadIndex(l.r), Immediate, 0);
  }

  lemma LoadStep(bus: Bus, s: State, l: Loop, i: byte)
    requires Placed(bus, l) && Ready(s.core.mem, l) && AtPc(bus, s, LoadAt(l)) && Index(s.core, l.r) == i < Count(l)
    ensures Step(bus, s).Running?
    ensures var s' := Step(bus, s).state;
            && AtPc(bus, s', StoreAt(l)) && s'.core == s.core.(a := s.core.mem[l.src + i], p := s'.core.p)
  {
    hide Code, AtPc, Step, Effect, Addr, Plain, MemRead, Signs, Length, StartsAt, PointerSize, Index;
    var at, from := LoadAt(l), l.from;
    var here := Here(s, at);
    SubRange(bus, l.base, End(l) - l.base, at, Length(from.mode));
    BlockAddress(bus, here, LDA, l.r, from, l.src);
    assert Plain(bus, l.src + i);
    PlainRead(bus, s.core.mem, l.src + i);
    LoadEffects(bus, here, from.mode);
    NotTaken(s.core.p, LDA);
    CodeStep(bus, s, at, LDA, from.mode, from.operand);
  }

  lemma StoreStep(bus: Bus, s: State, l: Loop, i: byte)
    requires Placed(bus, l) && Ready(s.core.mem, l) && AtPc(bus, s, StoreAt(l)) && Index(s.core, l.r) == i < Count(l)
    ensures Step(bus, s).Running?
    ensures var s' := Step(bus, s).state;
            && AtPc(bus, s', StepAt(l)) && s'.core == s.core.(mem := s.core.mem[l.dst + i := s.core.a])
  {
    hide Code, AtPc, Step, Effect, Addr, Plain, Length, StartsAt, PointerSize, Index;
    var at, to := StoreAt(l), l.to;
    var here := Here(s, at);
    SubRange(bus, l.base, End(l) - l.base, at, Length(to.mode));
    BlockAddress(bus, here, STA, l.r, to, l.dst);
    assert Plain(bus, l.dst + i);
    PlainWrite(bus, s.core.mem, l.dst + i, s.core.a);
    StoreEffects(bus, here, to.mode);
    NotTaken(s.core.p, STA);
    CodeStep(bus, s, at, STA, to.mode, to.operand);
  }

  lemma PlainWrite(bus: Bus, mem: Memory, addr: word, v: byte)
    requires Plain(bus, addr)
    ensures MemWrite(bus, mem, addr, v) == mem[addr := v]
  {
  }

  lemma IncrementStep(bus: Bus, s: State, l: Loop)
    requires Placed(bus, l) && Ready(s.core.mem, l) && AtPc(bus, s, StepAt(l))
    ensures Step(bus, s).Running?
    ensures var s' := Step(bus, s).state;
            && AtPc(bus, s', CompareAt(l)) && Index(s'.core, l.r) == Up(Index(s.core, l.r))
            && s'.core.mem == s.core.mem && Spares(s.core, s'.core, l.r)
  {
    hide Code, AtPc, Step, Effect, Plain, Signs, Up;
    var here := Here(s, StepAt(l));
    SubRange(bus, l.base, End(l) - l.base, StepAt(l), 1);
    StepsOfX(bus, here, Implied);
    StepsOfY(bus, here, Implied);
    NotTaken(s.core.p, StepIndex(l.r));
    CodeStep(bus, s, StepAt(l), StepIndex(l.r), Implied, 0);
  }

  lemma BackToLoad(l: Loop)
    requires End(l) <= RESERVED_START
    ensures BranchTo(BranchAt(l), 0x100 - (End(l) - LoadAt(l))) == LoadAt(l)
  {
  }

  lemma LoopTest(bus: Bus, s: State, l: Loop)
    requires Placed(bus, l) && Ready(s.core.mem, l) && AtPc(bus, s, CompareAt(l))
    ensures Run(bus, s, 2).Running?
    ensures var s' := Run(bus, s, 2).state;
            && s'.core == s.core.(p := s'.core.p)
            && AtPc(bus, s', if Index(s.core, l.r) != l.n then LoadAt(l) else End(l))
  {
    hide Code, AtPc, Run, Operand, Plain, BranchTo, Addr, MemRead;
    SubRange(bus, l.base, End(l) - l.base, CompareAt(l), 4);
    SubRange(bus, l.base, End(l) - l.base, CompareAt(l), 2);
    ImmediateByte(bus, Here(s, CompareAt(l)), CompareIndex(l.r), l.n);
    BackToLoad(l);
    CompareAndBranch(bus, s, CompareAt(l), CompareIndex(l.r), Immediate, l.n,
                     BNE, 0x100 - (End(l) - LoadAt(l)));
  }

  // ---------- the whole loop ----------

  lemma FiveSteps(bus: Bus, s: State)
    requires Step(bus, s).Running? && Step(bus, Step(bus, s).state).Running?
    requires Step(bus, Step(bus, Step(bus, s).state).state).Running?
    ensures Run(bus, s, 5) == Run(bus, Step(bus, Step(bus, Step(bus, s).state).state).state, 2)
  {
    hide Step;
    ThreeSteps(bus, s);
    RunSplit(bus, s, 3, 2);
  }

  /** One round copies one byte, steps the index and goes round again unless the index is n. */
  lemma LoopRound(bus: Bus, s: State, l: Loop, i: byte)
    requires Placed(bus, l) && Ready(s.core.mem, l) && AtPc(bus, s, LoadAt(l)) && Index(s.core, l.r) == i < Count(l)
    ensures Run(bus, s, 5).Running?
    ensures var s' := Run(bus, s, 5).state;
            && AtPc(bus, s', if Up(i) != l.n then LoadAt(l) else End(l))
            && Index(s'.core, l.r) == Up(i) && Spares(s.core, s'.core, l.r)
            && s'.core.mem == s.core.mem[l.dst + i := s.core.mem[l.src + i]] && Ready(s'.core.mem, l)
  {
    hide Run, Step, AtPc, Ready, Up;
    LoadStep(bus, s, l, i);
    var s1 := Step(bus, s).state;
    StoreStep(bus, s1, l, i);
    var s2 := Step(bus, s1).state;
    StoreKeepsReady(bus, s.core.mem, l, i, s1.core.a);
    IncrementStep(bus, s2, l);
    LoopTest(bus, Step(bus, s2).state, l);
    FiveSteps(bus, s);
  }

  /** The first i bytes are copied and no other cell has changed. */
  ghost predicate Copied(mem: Memory, mem': Memory, src: word, dst: word, i: int)
    requires 0 <= i && src + i <= 0x1_0000 && dst + i <= 0x1_0000
  {
    && mem'[dst..dst + i] == mem[src..src + i]
    && (forall x :: 0 <= x < 0x1_0000 && !(dst <= x < dst + i) ==> mem'[x] == mem[x])
  }

  lemma OneMore(mem: Memory, mem': Memory, src: word, dst: word, i: int, n: int)
    requires 0 <= i < n && src + n <= 0x1_0000 && dst + n <= 0x1_0000 && !(src < dst < src + n)
    requires Copied(mem, mem', src, dst, i)
    ensures Copied(mem, mem'[dst + i := mem'[src + i]], src, dst, i + 1)
  {
    var v, mem1 := mem'[src + i], mem'[dst + i := mem'[src + i]];
    assert v == mem[src + i];
    assert mem1[dst..dst + i + 1] == mem'[dst..dst + i] + [v];
    assert mem[src..src + i + 1] == mem[src..src + i] + [v];
  }

  lemma LastRound(l: Loop, i: byte)
    requires i < Count(l)
    ensures Up(i) == l.n <==> i + 1 == Count(l)
    ensures i + 1 < Count(l) ==> Up(i) == i + 1
  {
  }

  lemma Regions(bus: Bus, l: Loop)
    requires Placed(bus, l)
    ensures l.src + Count(l) <= 0x1_0000 && l.dst + Count(l) <= 0x1_0000 && !(l.src < l.dst < l.src + Count(l))
    ensures End(l) <= RESERVED_START
  {
    hide Plain;
  }

  lemma {:induction false} CopyFrom(bus: Bus, s: State, l: Loop, i: byte, mem: Memory)
    requires Placed(bus, l) && Ready(s.core.mem, l) && AtPc(bus, s, LoadAt(l)) && Index(s.core, l.r) == i < Count(l)
    requires Copied(mem, s.core.mem, l.src, l.dst, i)
    ensures Run(bus, s, 5 * (Count(l) - i)).Running?
    ensures var s' := Run(bus, s, 5 * (Count(l) - i)).state;
            && AtPc(bus, s', End(l)) && Index(s'.core, l.r) == l.n && Spares(s.core, s'.core, l.r)
            && Copied(mem, s'.core.mem, l.src, l.dst, Count(l))
    decreases Count(l) - i
  {
    hide Run, AtPc, Placed, Ready, Copied, Count, Up, Index, LoadAt, End;
    Regions(bus, l);
    LoopRound(bus, s, l, i);
    LastRound(l, i);
    var s1 := Run(bus, s, 5).state;
    OneMore(mem, s.core.mem, l.src, l.dst, i, Count(l));
    if i + 1 < Count(l) {
      CopyFrom(bus, s1, l, i + 1, mem);
      RunSplit(bus, s, 5, 5 * (Count(l) - i - 1));
      assert 5 + 5 * (Count(l) - i - 1) == 5 * (Count(l) - i);
    }
  }

  /**
   * The loop copies n bytes (256 if n is 0) in any indexed mode, changes no other cell, neither SP nor the
   * other index register, and goes on behind its last instruction.
   */
  lemma CopyLoop(bus: Bus, s: State, l: Loop)
    requires Placed(bus, l) && Ready(s.core.mem, l) && AtPc(bus, s, l.base)
    ensures Run(bus, s, 1 + 5 * Count(l)).Running?
    ensures var s' := Run(bus, s, 1 + 5 * Count(l)).state;
            && AtPc(bus, s', End(l)) && Index(s'.core, l.r) == l.n && Spares(s.core, s'.core, l.r)
            && Copied(s.core.mem, s'.core.mem, l.src, l.dst, Count(l))
  {
    hide Step, AtPc, Placed, Ready, Index, LoadAt, End;
    Regions(bus, l);
    InitStep(bus, s, l);
    CopyFrom(bus, Step(bus, s).state, l, 0, s.core.mem);
  }

  // ---------- a loop there is ----------

  const EXAMPLE := Loop(0x200, RegY, Block(IndirectIndexed, 0x10), Block(AbsoluteY, 0x400), 3, 0x300, 0x400)

  /** LDY #0; LDA ($10),Y; STA $0400,Y; INY; CPY #3; BNE at 0x200, and the pointer 0x0300 at 0x10. */
  predicate ExampleBytes(mem: Memory) {
    && mem[0x10] == 0x00 && mem[0x11] == 0x03
    && mem[0x200] == 0xA0 && mem[0x201] == 0x00
    && mem[0x202] == 0xB1 && mem[0x203] == 0x10
    && mem[0x204] == 0x99 && mem[0x205] == 0x00 && mem[0x206] == 0x04
    && mem[0x207] == 0xC8
    && mem[0x208] == 0xC0 && mem[0x209] == 0x03
    && mem[0x20A] == 0xD0 && mem[0x20B] == 0xF6
  }

  lemma OpcodesOfCopy()
    ensures Decode(0xA0) == Opcode(LDY, Immediate) && Decode(0xB1) == Opcode(LDA, IndirectIndexed)
    ensures Decode(0x99) == Opcode(STA, AbsoluteY) && Decode(0xC8) == Opcode(INY, Implied)
    ensures Decode(0xC0) == Opcode(CPY, Immediate) && Decode(0xD0) == Opcode(BNE, Relative)
  {
  }

  lemma ExampleIsReady(mem: Memory)
    requires ExampleBytes(mem)
    ensures End(EXAMPLE) == 0x20C && Ready(mem, EXAMPLE)
  {
    OpcodesOfCopy();
    hide Decode;
  }

  lemma ExampleIsPlaced()
    ensures Placed(PLAIN_BUS, EXAMPLE)
  {
  }

  /** The conditions of CopyLoop can be met: three bytes go from where a pointer points to 0x400. */
  lemma CopyExample(s: State)
    requires ExampleBytes(s.core.mem) && NextPc(PLAIN_BUS, s) == 0x200
    ensures var r := Run(PLAIN_BUS, s, 16);
            && r.Running? && NextPc(PLAIN_BUS, r.state) == 0x20C && r.state.core.y == 3
            && r.state.core.mem[0x400..0x403] == s.core.mem[0x300..0x303]
  {
    ExampleIsPlaced();
    ExampleIsReady(s.core.mem);
    hide Placed, Ready, ExampleBytes, Run, NextPc;
    CopyLoop(PLAIN_BUS, s, EXAMPLE);
  }
}
