/**
 * A plain instruction-set machine, which has no pending branches: the next program counter is known
 * when the instruction executes. It comes in two readings of operands. One takes the operand as the code
 * does, where the address 0xFFFF means "no address"; the other has an accumulator mode of its own and
 * takes every address for an address. The emulated machine simulates both, under exact conditions.
 */
module ReferenceMachine {
  import opened Bytes
  import opened Footprints
  import opened StatusRegister
  import opened Opcodes
  import opened Machine

  // pc is the address of the instruction about to execute.
  datatype RefState = RefState(pc: word, core: Core)

  datatype Reading = AsCoded | Separate

  /** The emulated machine as it stands at an instruction, with nothing pending. */
  function At(r: RefState): State { State(r.pc, INVALID_ADDRESS, r.core) }

  // ---------- an accumulator mode of its own ----------

  predicate HasAddress(mode: AddrMode) { mode != Implied && mode != Accumulator }

  function SeparateAddress(bus: Bus, r: RefState, mode: AddrMode): Option<word> {
    if HasAddress(mode) then Some(Addr(bus, At(r), mode)) else None
  }

  function SeparateOperand(bus: Bus, r: RefState, mode: AddrMode): byte {
    match SeparateAddress(bus, r, mode)
    case Some(addr) => MemRead(bus, r.core.mem, addr)
    case None => if mode == Accumulator then r.core.a else 0
  }

  function SeparateShift(bus: Bus, r: RefState, mode: AddrMode, left: bool, fill: bool): Core {
    match SeparateAddress(bus, r, mode)
    case Some(addr) => ShiftMem(bus, r.core, addr, left, fill)
    case None => ShiftAcc(r.core, left, fill)
  }

  predicate Shifts(op: Mnemonic) { ShiftsLeft(op) || ShiftsRight(op) }

  predicate Calculates(op: Mnemonic) { Kind(op) == Combining || Kind(op) == Comparing }

  predicate ShiftsIn(p: Flags, op: Mnemonic) { Rotates(op) && p.c }

  function SeparateEffect(bus: Bus, r: RefState, op: Mnemonic, m: AddrMode): Core {
    if Calculates(op) then Alu(r.core, op, SeparateOperand(bus, r, m))
    else if Shifts(op) then SeparateShift(bus, r, m, ShiftsLeft(op), ShiftsIn(r.core.p, op))
    else Effect(bus, At(r), op, m)
  }

  // ---------- the machine ----------

  function RefEffect(bus: Bus, how: Reading, r: RefState, op: Mnemonic, m: AddrMode): Core {
    if how == AsCoded then Effect(bus, At(r), op, m) else SeparateEffect(bus, r, op, m)
  }

  function RefNext(bus: Bus, r: RefState, op: Mnemonic, m: AddrMode): word {
    if Taken(r.core.p, op) then Target(bus, At(r), op, m) else ToWord(r.pc + Length(m))
  }

  function RefExec(bus: Bus, how: Reading, r: RefState, op: Mnemonic, m: AddrMode): RefState {
    RefState(RefNext(bus, r, op, m), RefEffect(bus, how, r, op, m))
  }

  function RefStep(bus: Bus, how: Reading, r: RefState): Outcome<RefState> {
    var opcode := CurrentOpcode(bus, r.core.mem, r.pc);
    if r.pc < RESERVED_START then Running(RefExec(bus, how, r, opcode.name, opcode.mode)) else Aborted
  }

  function RefRun(bus: Bus, how: Reading, r: RefState, n: nat): Outcome<RefState>
    decreases n
  {
    if n == 0 then Running(r)
    else match RefStep(bus, how, r)
      case Running(r') => RefRun(bus, how, r', n - 1)
      case Aborted => Aborted
  }

  /** The reference state that a state of the emulated machine stands for. */
  function View(bus: Bus, s: State): RefState { RefState(NextPc(bus, s), s.core) }

  // ---------- where control parts ----------

  /** A branch is taken to 0xFFFF, which the fetch reads as "no branch". */
  predicate BranchesToSentinel(bus: Bus, r: RefState, op: Mnemonic, m: AddrMode) {
    Taken(r.core.p, op) && Target(bus, At(r), op, m) == INVALID_ADDRESS
  }

  /** The instruction falls through after changing how long its own opcode byte says it is. */
  predicate RelengthsItself(bus: Bus, r: RefState, op: Mnemonic, m: AddrMode) {
    !Taken(r.core.p, op) && LengthAt(bus, Effect(bus, At(r), op, m).mem, r.pc) != Length(m)
  }

  // ---------- where operands part ----------

  /** A memory operand of an operation that could also work on the accumulator lies at 0xFFFF. */
  predicate OperandAtSentinel(bus: Bus, r: RefState, op: Mnemonic, m: AddrMode) {
    (Calculates(op) || Shifts(op)) && SeparateAddress(bus, r, m) == Some(INVALID_ADDRESS)
  }

  /** The calculation gives the same with the operand v as with 0, which the code puts in its place. */
  predicate LikeZero(c: Core, op: Mnemonic, v: byte) {
    match op
    case BIT => true
    case AND => BitAnd(c.a, v) == 0
    case ORA => BitOr(c.a, v) == c.a
    case CMP => ComparesLikeZero(c.a, v)
    case CPX => ComparesLikeZero(c.x, v)
    case CPY => ComparesLikeZero(c.y, v)
    case _ => v == 0
  }

  predicate ComparesLikeZero(reg: byte, v: byte) {
    v == 0 || (v < reg && (reg - v >= 0x80) == (reg >= 0x80))
  }

  /** A shift changes neither the accumulator nor the cell at 0xFFFF, and shows the same flags for both. */
  predicate ShiftsLikeAccumulator(bus: Bus, c: Core, left: bool, fill: bool) {
    var t := bus.transl(INVALID_ADDRESS);
    var v := MemRead(bus, c.mem, INVALID_ADDRESS);
    && Shifted(c.a, left, fill) == c.a
    && bus.write(t, Shifted(v, left, fill)) == c.mem[t]
    && ShiftedOut(v, left) == ShiftedOut(c.a, left)
    && (v == 0) == (c.a == 0) && (v >= 0x80) == (c.a >= 0x80)
  }

  predicate OperandHarmless(bus: Bus, r: RefState, op: Mnemonic, m: AddrMode) {
    OperandAtSentinel(bus, r, op, m) ==>
      if Shifts(op) then ShiftsLikeAccumulator(bus, r.core, ShiftsLeft(op), ShiftsIn(r.core.p, op))
      else LikeZero(r.core, op, MemRead(bus, r.core.mem, INVALID_ADDRESS))
  }

  lemma OperandsAgree(bus: Bus, r: RefState, m: AddrMode)
    ensures Operand(bus, At(r), m) == SeparateOperand(bus, r, m) <==>
            SeparateAddress(bus, r, m) != Some(INVALID_ADDRESS) || MemRead(bus, r.core.mem, INVALID_ADDRESS) == 0
  {
    hide MemRead;
  }

  lemma OperandAtSentinelValue(bus: Bus, r: RefState, m: AddrMode)
    ensures if SeparateAddress(bus, r, m) == Some(INVALID_ADDRESS)
            then Operand(bus, At(r), m) == 0 && SeparateOperand(bus, r, m) == MemRead(bus, r.core.mem, INVALID_ADDRESS)
            else Operand(bus, At(r), m) == SeparateOperand(bus, r, m)
  {
    hide MemRead;
  }

  lemma BitsOfZero(a: byte)
    ensures BitAnd(a, 0) == 0 && BitOr(a, 0) == a && BitXor(a, 0) == a
  {
    ByteRoundTrip(a);
    assert (a as bv8) & 0 == 0 && (a as bv8) | 0 == a as bv8 && (a as bv8) ^ 0 == a as bv8;
  }

  lemma XorOnlyWithZero(a: byte, v: byte)
    requires BitXor(a, v) == a
    ensures v == 0
  {
    ByteRoundTrip(v);
    BitsRoundTrip((a as bv8) ^ (v as bv8));
    assert (a as bv8) ^ (v as bv8) == a as bv8 ==> v as bv8 == 0;
  }

  lemma LogicLikeZero(c: Core, op: Mnemonic, v: byte)
    requires op == AND || op == EOR || op == ORA || op == BIT
    ensures Alu(c, op, 0) == Alu(c, op, v) <==> LikeZero(c, op, v)
  {
    hide BitAnd, BitOr, BitXor;
    BitsOfZero(c.a);
    if BitXor(c.a, v) == c.a {
      XorOnlyWithZero(c.a, v);
    }
  }

  lemma ArithmeticLikeZero(c: Core, op: Mnemonic, v: byte)
    requires op == ADC || op == SBC
    ensures Alu(c, op, 0) == Alu(c, op, v) <==> LikeZero(c, op, v)
  {
    hide BasicFlags, BitAnd, BitOr;
    if v != 0 {
      assert ToByte(c.a + v + Carry(c.p)) != ToByte(c.a + Carry(c.p));
      assert ToByte(c.a - v - (1 - Carry(c.p))) != ToByte(c.a - (1 - Carry(c.p)));
    }
  }

  lemma CompareLikeZero(c: Core, reg: Reg, v: byte)
    ensures Compare(c, reg, 0) == Compare(c, reg, v) <==> ComparesLikeZero(GetReg(c, reg), v)
  {
    hide Pack, GetReg;
  }

  lemma ComparisonsLikeZero(c: Core, op: Mnemonic, v: byte)
    requires op == CMP || op == CPX || op == CPY
    ensures Alu(c, op, 0) == Alu(c, op, v) <==> LikeZero(c, op, v)
  {
    hide Compare, ComparesLikeZero, BitAnd, BitOr;
    CompareLikeZero(c, RegA, v);
    CompareLikeZero(c, RegX, v);
    CompareLikeZero(c, RegY, v);
  }

  lemma CalculationsAgree(c: Core, op: Mnemonic, v: byte)
    requires Calculates(op)
    ensures Alu(c, op, 0) == Alu(c, op, v) <==> LikeZero(c, op, v)
  {
    hide Alu, LikeZero;
    if op == ADC || op == SBC {
      ArithmeticLikeZero(c, op, v);
    } else if Kind(op) == Combining {
      LogicLikeZero(c, op, v);
    } else {
      ComparisonsLikeZero(c, op, v);
    }
  }

  lemma ShiftsAgree(bus: Bus, c: Core, left: bool, fill: bool)
    ensures ShiftAcc(c, left, fill) == ShiftMem(bus, c, INVALID_ADDRESS, left, fill)
       <==> ShiftsLikeAccumulator(bus, c, left, fill)
  {
    hide Shifted, ShiftedOut;
    var t := bus.transl(INVALID_ADDRESS);
    var mem' := MemWrite(bus, c.mem, INVALID_ADDRESS, Shifted(MemRead(bus, c.mem, INVALID_ADDRESS), left, fill));
    assert mem' == c.mem <==> mem'[t] == c.mem[t];
  }

  /** Without a hook there: accumulator and cell both hold the byte that the shift leaves alone. */
  lemma ShiftsAgreePlain(bus: Bus, c: Core, left: bool, fill: bool)
    requires Plain(bus, INVALID_ADDRESS)
    ensures ShiftAcc(c, left, fill) == ShiftMem(bus, c, INVALID_ADDRESS, left, fill)
       <==> c.a == c.mem[INVALID_ADDRESS] == (if fill then 0xFF else 0)
  {
    ShiftsAgree(bus, c, left, fill);
  }

  lemma AddressOrSentinel(bus: Bus, r: RefState, m: AddrMode)
    ensures !HasAddress(m) ==> Addr(bus, At(r), m) == INVALID_ADDRESS
    ensures HasAddress(m) ==> SeparateAddress(bus, r, m) == Some(Addr(bus, At(r), m))
  {
  }

  lemma ShiftsDoNotCalculate(op: Mnemonic)
    ensures Calculates(op) ==> !Shifts(op)
  {
  }

  lemma ShiftEffects(bus: Bus, r: RefState, op: Mnemonic, m: AddrMode)
    requires Shifts(op)
    ensures Effect(bus, At(r), op, m) == Shift(bus, At(r), m, ShiftsLeft(op), ShiftsIn(r.core.p, op))
    ensures !Calculates(op)
  {
    hide Shift, Effect;
    ShiftIs(bus, At(r), op, m);
  }

  lemma CalculationEffects(bus: Bus, r: RefState, op: Mnemonic, m: AddrMode)
    requires Calculates(op)
    ensures Effect(bus, At(r), op, m) == Alu(r.core, op, Operand(bus, At(r), m))
  {
    hide Alu, Operand, Effect;
    AluIs(bus, At(r), op, m);
  }

  lemma CalculationReadings(bus: Bus, r: RefState, op: Mnemonic, m: AddrMode)
    requires Calculates(op)
    ensures Effect(bus, At(r), op, m) == SeparateEffect(bus, r, op, m) <==> OperandHarmless(bus, r, op, m)
  {
    hide Effect, MemRead, Alu, LikeZero, SeparateOperand, SeparateShift, SeparateAddress, Operand, Calculates, Shifts;
    hide ShiftsLikeAccumulator;
    CalculationEffects(bus, r, op, m);
    OperandAtSentinelValue(bus, r, m);
    CalculationsAgree(r.core, op, MemRead(bus, r.core.mem, INVALID_ADDRESS));
    ShiftsDoNotCalculate(op);
  }

  lemma ShiftAddresses(bus: Bus, r: RefState, m: AddrMode, left: bool, fill: bool)
    ensures Shift(bus, At(r), m, left, fill) == SeparateShift(bus, r, m, left, fill)
       <==> (SeparateAddress(bus, r, m) == Some(INVALID_ADDRESS) ==> ShiftsLikeAccumulator(bus, r.core, left, fill))
  {
    hide Addr, ShiftMem, ShiftAcc, ShiftsLikeAccumulator;
    AddressOrSentinel(bus, r, m);
    ShiftsAgree(bus, r.core, left, fill);
  }

  lemma ShiftReadings(bus: Bus, r: RefState, op: Mnemonic, m: AddrMode)
    requires Shifts(op)
    ensures Effect(bus, At(r), op, m) == SeparateEffect(bus, r, op, m) <==> OperandHarmless(bus, r, op, m)
  {
    hide Effect, Shift, SeparateShift, SeparateAddress, SeparateOperand, ShiftsLikeAccumulator, LikeZero, Alu, MemRead;
    hide Shifts, ShiftsLeft, ShiftsIn, Calculates;
    ShiftEffects(bus, r, op, m);
    ShiftAddresses(bus, r, m, ShiftsLeft(op), ShiftsIn(r.core.p, op));
  }

  /** The two readings have the same effect exactly when the operand is not at 0xFFFF, or it makes no difference. */
  lemma EffectsAgree(bus: Bus, r: RefState, op: Mnemonic, m: AddrMode)
    ensures Effect(bus, At(r), op, m) == SeparateEffect(bus, r, op, m) <==> OperandHarmless(bus, r, op, m)
  {
    hide Effect, Alu, SeparateOperand, SeparateShift, SeparateAddress, Calculates, Shifts;
    if Calculates(op) {
      CalculationReadings(bus, r, op, m);
    } else if Shifts(op) {
      ShiftReadings(bus, r, op, m);
    }
  }

  // ---------- one step ----------

  /** What the emulated machine has to keep to simulate the reference machine over one instruction. */
  predicate Keeps(bus: Bus, how: Reading, r: RefState, op: Mnemonic, m: AddrMode) {
    && !BranchesToSentinel(bus, r, op, m)
    && !RelengthsItself(bus, r, op, m)
    && (how == Separate ==> OperandHarmless(bus, r, op, m))
  }

  lemma NextAgrees(bus: Bus, r: RefState, op: Mnemonic, m: AddrMode)
    requires r.pc < RESERVED_START
    ensures NextPc(bus, Exec(bus, At(r), op, m)) == RefNext(bus, r, op, m)
       <==> !BranchesToSentinel(bus, r, op, m) && !RelengthsItself(bus, r, op, m)
  {
    hide Effect, Target, Taken, LengthAt, Length, ToWord, NextPc;
    NextPcOf(bus, Exec(bus, At(r), op, m));
    NoWrap(r.pc, Length(m));
  }

  /** One executed instruction: the emulated machine then views as the reference successor, exactly when. */
  lemma ExecSimulates(bus: Bus, how: Reading, r: RefState, op: Mnemonic, m: AddrMode)
    requires r.pc < RESERVED_START
    ensures View(bus, Exec(bus, At(r), op, m)) == RefExec(bus, how, r, op, m) <==> Keeps(bus, how, r, op, m)
  {
    hide Effect, SeparateEffect, Target, Taken, NextPc, RefNext, OperandHarmless, BranchesToSentinel, RelengthsItself;
    NextAgrees(bus, r, op, m);
    EffectsAgree(bus, r, op, m);
  }

  lemma NoWrap(pc: word, len: int)
    requires pc < RESERVED_START && 1 <= len <= 3
    ensures ToWord(pc + len) == pc + len != INVALID_ADDRESS
  {
  }

  lemma NextPcOf(bus: Bus, s: State)
    requires s.pc < RESERVED_START
    ensures NextPc(bus, s) ==
            if s.branched != INVALID_ADDRESS then s.branched else s.pc + LengthAt(bus, s.core.mem, s.pc)
    ensures s.pc + LengthAt(bus, s.core.mem, s.pc) < INVALID_ADDRESS
  {
    hide CurrentOpcode;
  }

  predicate StepKeeps(bus: Bus, how: Reading, r: RefState) {
    var opcode := CurrentOpcode(bus, r.core.mem, r.pc);
    Keeps(bus, how, r, opcode.name, opcode.mode)
  }

  lemma StepSimulates(bus: Bus, how: Reading, s: State)
    ensures match (Step(bus, s), RefStep(bus, how, View(bus, s)))
            case (Running(s'), Running(r')) => View(bus, s') == r' <==> StepKeeps(bus, how, View(bus, s))
            case (Aborted, Aborted) => true
            case _ => false
  {
    var r := View(bus, s);
    if r.pc < RESERVED_START {
      var opcode := CurrentOpcode(bus, r.core.mem, r.pc);
      ExecSimulates(bus, how, r, opcode.name, opcode.mode);
      StepIsExec(bus, s);
      hide Exec, View, RefExec, CurrentOpcode, Keeps, NextPc, Step;
    } else {
      hide CurrentOpcode, RefExec;
    }
  }

  /** A caller's criterion, on the state before the step: the instruction does not write its own opcode cell. */
  lemma OwnCellKept(bus: Bus, r: RefState, op: Mnemonic, m: AddrMode)
    requires LengthAt(bus, r.core.mem, r.pc) == Length(m) && !Writes(bus, At(r), op, m, bus.transl(r.pc))
    ensures !RelengthsItself(bus, r, op, m)
  {
    hide Effect, Writes, Taken, Length;
    EffectTouches(bus, At(r), op, m, bus.transl(r.pc));
  }

  // ---------- whole runs ----------

  /** After k steps the two machines have both aborted, or view as equal. */
  ghost predicate SameOutcome(bus: Bus, how: Reading, s: State, r: RefState, k: nat) {
    match (Run(bus, s, k), RefRun(bus, how, r, k))
    case (Running(s'), Running(r')) => View(bus, s') == r'
    case (Aborted, Aborted) => true
    case _ => false
  }

  /** Step for step: equal views, and a common end if there is one. */
  ghost predicate Lockstep(bus: Bus, how: Reading, s: State, r: RefState, n: nat)
    decreases n
  {
    && View(bus, s) == r
    && (n > 0 ==>
          match (Step(bus, s), RefStep(bus, how, r))
          case (Running(s'), Running(r')) => Lockstep(bus, how, s', r', n - 1)
          case (Aborted, Aborted) => true
          case _ => false)
  }

  lemma {:induction false} LockstepGivesOutcome(bus: Bus, how: Reading, s: State, r: RefState, n: nat, k: nat)
    requires Lockstep(bus, how, s, r, n) && k <= n
    ensures SameOutcome(bus, how, s, r, k)
    decreases k
  {
    hide Step, RefStep, View;
    if k > 0 {
      match (Step(bus, s), RefStep(bus, how, r)) {
        case (Running(s'), Running(r')) => LockstepGivesOutcome(bus, how, s', r', n - 1, k - 1);
        case (Aborted, Aborted) =>
      }
    }
  }

  lemma {:induction false} OutcomesGiveLockstep(bus: Bus, how: Reading, s: State, r: RefState, n: nat)
    requires forall k: nat :: k <= n ==> SameOutcome(bus, how, s, r, k)
    ensures Lockstep(bus, how, s, r, n)
    decreases n
  {
    hide Step, RefStep, View;
    assert SameOutcome(bus, how, s, r, 0);
    if n > 0 {
      OutcomeOfOne(bus, how, s, r);
      assert SameOutcome(bus, how, s, r, 1);
      match (Step(bus, s), RefStep(bus, how, r)) {
        case (Running(s'), Running(r')) =>
          forall k: nat | k <= n - 1
            ensures SameOutcome(bus, how, s', r', k)
          {
            assert SameOutcome(bus, how, s, r, k + 1);
          }
          OutcomesGiveLockstep(bus, how, s', r', n - 1);
        case _ =>
      }
    }
  }

  lemma OutcomeOfOne(bus: Bus, how: Reading, s: State, r: RefState)
    ensures Run(bus, s, 1) == Step(bus, s) && RefRun(bus, how, r, 1) == RefStep(bus, how, r)
  {
    hide Step, RefStep;
    OneStep(bus, s);
    assert RefStep(bus, how, r).Running? ==> RefRun(bus, how, RefStep(bus, how, r).state, 0) == RefStep(bus, how, r);
  }

  /** Lockstep over n steps is equality of the outcomes after every number of steps up to n. */
  lemma LockstepIsOutcomes(bus: Bus, how: Reading, s: State, r: RefState, n: nat)
    ensures Lockstep(bus, how, s, r, n) <==> forall k: nat :: k <= n ==> SameOutcome(bus, how, s, r, k)
  {
    hide Lockstep, SameOutcome;
    if Lockstep(bus, how, s, r, n) {
      forall k: nat | k <= n
        ensures SameOutcome(bus, how, s, r, k)
      {
        LockstepGivesOutcome(bus, how, s, r, n, k);
      }
    } else if forall k: nat :: k <= n ==> SameOutcome(bus, how, s, r, k) {
      OutcomesGiveLockstep(bus, how, s, r, n);
    }
  }

  /** Every instruction of the reference run is one the emulated machine simulates. */
  ghost predicate RunKeeps(bus: Bus, how: Reading, r: RefState, n: nat)
    decreases n
  {
    n > 0 && RefStep(bus, how, r).Running? ==>
      StepKeeps(bus, how, r) && RunKeeps(bus, how, RefStep(bus, how, r).state, n - 1)
  }

  lemma {:induction false} LockstepIff(bus: Bus, how: Reading, s: State, n: nat)
    ensures Lockstep(bus, how, s, View(bus, s), n) <==> RunKeeps(bus, how, View(bus, s), n)
    decreases n
  {
    hide Step, RefStep, View, StepKeeps;
    if n > 0 {
      var r := View(bus, s);
      StepSimulates(bus, how, s);
      if RefStep(bus, how, r).Running? {
        var s' := Step(bus, s).state;
        if View(bus, s') == RefStep(bus, how, r).state {
          LockstepIff(bus, how, s', n - 1);
        }
      }
    }
  }

  /**
   * The simulation theorem: over any number of steps the emulated machine, with its deferred branches,
   * has the outcomes of the machine that computes the next program counter at execution, if and only if
   * no instruction branches to 0xFFFF or changes its own length.
   */
  lemma RunSimulates(bus: Bus, s: State, n: nat)
    ensures (forall k: nat :: k <= n ==> SameOutcome(bus, AsCoded, s, View(bus, s), k))
       <==> RunKeeps(bus, AsCoded, View(bus, s), n)
  {
    hide SameOutcome, Lockstep, RunKeeps, View;
    LockstepIsOutcomes(bus, AsCoded, s, View(bus, s), n);
    LockstepIff(bus, AsCoded, s, n);
  }

  predicate StepLeavesOwnCode(bus: Bus, r: RefState) {
    var opcode := CurrentOpcode(bus, r.core.mem, r.pc);
    && !BranchesToSentinel(bus, r, opcode.name, opcode.mode)
    && !Writes(bus, At(r), opcode.name, opcode.mode, bus.transl(r.pc))
  }

  /** No instruction of the run branches to 0xFFFF or writes the cell it was fetched from. */
  ghost predicate RunLeavesOwnCode(bus: Bus, r: RefState, n: nat)
    decreases n
  {
    n > 0 && RefStep(bus, AsCoded, r).Running? ==>
      StepLeavesOwnCode(bus, r) && RunLeavesOwnCode(bus, RefStep(bus, AsCoded, r).state, n - 1)
  }

  lemma OwnCodeStep(bus: Bus, r: RefState)
    requires StepLeavesOwnCode(bus, r)
    ensures StepKeeps(bus, AsCoded, r)
  {
    hide Writes, BranchesToSentinel, RelengthsItself, MemRead, Decode;
    var opcode := CurrentOpcode(bus, r.core.mem, r.pc);
    OwnCellKept(bus, r, opcode.name, opcode.mode);
  }

  lemma {:induction false} OwnCodeRun(bus: Bus, r: RefState, n: nat)
    requires RunLeavesOwnCode(bus, r, n)
    ensures RunKeeps(bus, AsCoded, r, n)
    decreases n
  {
    hide RefStep, StepLeavesOwnCode, StepKeeps;
    if n > 0 && RefStep(bus, AsCoded, r).Running? {
      OwnCodeStep(bus, r);
      OwnCodeRun(bus, RefStep(bus, AsCoded, r).state, n - 1);
    }
  }

  /** Programs that leave their own code alone run as on the machine without pending branches. */
  lemma OwnCodeSimulates(bus: Bus, s: State, n: nat)
    requires RunLeavesOwnCode(bus, View(bus, s), n)
    ensures forall k: nat :: k <= n ==> SameOutcome(bus, AsCoded, s, View(bus, s), k)
  {
    hide RunLeavesOwnCode, RunKeeps, SameOutcome, View;
    OwnCodeRun(bus, View(bus, s), n);
    RunSimulates(bus, s, n);
  }

  /** And of the machine with an accumulator mode of its own, if also every operand at 0xFFFF is harmless. */
  lemma RunSimulatesSeparate(bus: Bus, s: State, n: nat)
    ensures (forall k: nat :: k <= n ==> SameOutcome(bus, Separate, s, View(bus, s), k))
       <==> RunKeeps(bus, Separate, View(bus, s), n)
  {
    hide SameOutcome, Lockstep, RunKeeps, View;
    LockstepIsOutcomes(bus, Separate, s, View(bus, s), n);
    LockstepIff(bus, Separate, s, n);
  }

  // ---------- the conditions are needed: four programs of one instruction at 0x200 ----------

  function Program(core: Core, b0: byte, b1: byte, b2: byte): State {
    State(0, 0x200, core.(mem := core.mem[0x200 := b0][0x201 := b1][0x202 := b2]))
  }

  /** The instruction that such a program executes. */
  function First(core: Core, b0: byte, b1: byte, b2: byte): RefState { RefState(0x200, Program(core, b0, b1, b2).core) }

  lemma ProgramSteps(core: Core, b0: byte, b1: byte, b2: byte, how: Reading)
    requires Decode(b0).mode == Absolute
    ensures var s := Program(core, b0, b1, b2);
            var r := First(core, b0, b1, b2);
            && View(PLAIN_BUS, s) == r
            && Step(PLAIN_BUS, s) == Running(Exec(PLAIN_BUS, At(r), Decode(b0).name, Absolute))
            && RefStep(PLAIN_BUS, how, r) == Running(RefExec(PLAIN_BUS, how, r, Decode(b0).name, Absolute))
            && Addr(PLAIN_BUS, At(r), Absolute) == MakeWord(b2, b1)
  {
    hide Decode, Exec, RefExec;
  }

  lemma OpcodesOfPrograms()
    ensures Decode(0x4C) == Opcode(JMP, Absolute) && Decode(0x6D) == Opcode(ADC, Absolute)
    ensures Decode(0xEE) == Opcode(INC, Absolute) && Decode(0xEF) == Opcode(XXX, Implied)
    ensures Decode(0x0E) == Opcode(ASL, Absolute)
  {
  }

  /** JMP $FFFF falls through to the instruction behind it. */
  lemma JumpToSentinelFallsThrough(core: Core)
    ensures var s := Program(core, 0x4C, 0xFF, 0xFF);
            && Step(PLAIN_BUS, s).Running? && RefStep(PLAIN_BUS, AsCoded, View(PLAIN_BUS, s)).Running?
            && NextPc(PLAIN_BUS, Step(PLAIN_BUS, s).state) == 0x203
            && RefStep(PLAIN_BUS, AsCoded, View(PLAIN_BUS, s)).state.pc == INVALID_ADDRESS
  {
    hide Decode, Step, RefStep, Addr;
    OpcodesOfPrograms();
    ProgramSteps(core, 0x4C, 0xFF, 0xFF, AsCoded);
  }

  /** INC of its own opcode byte leaves an undocumented one-byte opcode to measure the length by. */
  lemma SelfModificationChangesLength(core: Core)
    ensures var s := Program(core, 0xEE, 0x00, 0x02);
            && Step(PLAIN_BUS, s).Running? && RefStep(PLAIN_BUS, AsCoded, View(PLAIN_BUS, s)).Running?
            && NextPc(PLAIN_BUS, Step(PLAIN_BUS, s).state) == 0x201
            && RefStep(PLAIN_BUS, AsCoded, View(PLAIN_BUS, s)).state.pc == 0x203
  {
    hide Decode, Step, RefStep, Addr;
    OpcodesOfPrograms();
    ProgramSteps(core, 0xEE, 0x00, 0x02, AsCoded);
    assert Step(PLAIN_BUS, Program(core, 0xEE, 0x00, 0x02)).state.core.mem[0x200] == 0xEF;
  }

  /** An arithmetic operand at 0xFFFF reads as zero: ADC $FFFF adds nothing. */
  lemma OperandAtSentinelIsZero(core: Core)
    requires core.a == 1 && core.mem[0xFFFF] == 1 && !core.p.c
    ensures var s := Program(core, 0x6D, 0xFF, 0xFF);
            && Step(PLAIN_BUS, s).Running? && RefStep(PLAIN_BUS, Separate, View(PLAIN_BUS, s)).Running?
            && Step(PLAIN_BUS, s).state.core.a == 1
            && RefStep(PLAIN_BUS, Separate, View(PLAIN_BUS, s)).state.core.a == 2
  {
    hide Decode, Step, RefStep, Addr;
    OpcodesOfPrograms();
    ProgramSteps(core, 0x6D, 0xFF, 0xFF, Separate);
  }

  /** A shift of the cell at 0xFFFF shifts the accumulator instead: ASL $FFFF. */
  lemma ShiftAtSentinelShiftsAccumulator(core: Core)
    requires core.a == 1 && core.mem[0xFFFF] == 2
    ensures var s := Program(core, 0x0E, 0xFF, 0xFF);
            && Step(PLAIN_BUS, s).Running? && RefStep(PLAIN_BUS, Separate, View(PLAIN_BUS, s)).Running?
            && Step(PLAIN_BUS, s).state.core.a == 2
            && Step(PLAIN_BUS, s).state.core.mem[0xFFFF] == 2
            && RefStep(PLAIN_BUS, Separate, View(PLAIN_BUS, s)).state.core.a == 1
            && RefStep(PLAIN_BUS, Separate, View(PLAIN_BUS, s)).state.core.mem[0xFFFF] == 4
  {
    hide Decode, Step, RefStep, Addr;
    OpcodesOfPrograms();
    ProgramSteps(core, 0x0E, 0xFF, 0xFF, Separate);
  }
}
