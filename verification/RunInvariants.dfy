/** What every run of the machine keeps: the stack pointer's balance and the status flags. */
module RunInvariants {
  import opened Bytes
  import opened StatusRegister
  import opened Opcodes
  import opened Machine

  /** The instructions a run executes, in order. */
  function Executed(bus: Bus, s: State, n: nat): seq<Mnemonic>
    decreases n
  {
    if n == 0 then []
    else match Step(bus, s)
      case Running(s') => [NextOpcode(bus, s).name] + Executed(bus, s', n - 1)
      case Aborted => []
  }

  // ---------- the stack pointer ----------

  /** Bytes an instruction leaves on the stack, net. */
  function Pushed(op: Mnemonic): int {
    match op
    case PHA | PHP => 1
    case PLA | PLP => -1
    case JSR => 2
    case RTS => -2
    case _ => 0
  }

  lemma TransferKeeps(c: Core, op: Mnemonic)
    ensures op != TXS ==> Transfer(c, op).sp == c.sp
    ensures Transfer(c, op).mem == c.mem
  {
    hide BasicFlags;
  }

  lemma StackOpMovesSp(c: Core, pc: word, op: Mnemonic)
    requires Kind(op) == Stacking || Kind(op) == Calling
    ensures StackOp(c, pc, op).sp == ToByte(c.sp - Pushed(op))
  {
    hide Unpack, Pack, BasicFlags;
  }

  lemma AluKeeps(c: Core, op: Mnemonic, v: byte)
    ensures Alu(c, op, v).sp == c.sp && Alu(c, op, v).mem == c.mem
  {
    hide BitAnd, BitOr, BitXor, BasicFlags, ToByte, Pack;
  }

  lemma LoadKeeps(bus: Bus, s: State, m: AddrMode, r: Reg)
    requires r != RegSP
    ensures Load(bus, s, m, r).sp == s.core.sp && Load(bus, s, m, r).mem == s.core.mem
  {
    hide MemRead, Addr, Unpack, Pack, BasicFlags;
  }

  lemma ShiftKeepsSp(bus: Bus, s: State, m: AddrMode, left: bool, fill: bool)
    ensures Shift(bus, s, m, left, fill).sp == s.core.sp
  {
    hide MemRead, MemWrite, Addr, Shifted, ShiftedOut, BasicFlags;
  }

  lemma ModifyKeepsSp(bus: Bus, s: State, op: Mnemonic, m: AddrMode)
    ensures Modify(bus, s, op, m).sp == s.core.sp
  {
    hide Shift, MemRead, MemInc, Addr, BasicFlags;
    ShiftKeepsSp(bus, s, m, ShiftsLeft(op), Rotates(op) && s.core.p.c);
  }

  lemma LoadedReg(op: Mnemonic)
    ensures RegOf(op) != RegSP && RegOf(op) != RegP && RegOf(op) != RegInvalid
  {
  }

  lemma PushedOnlyByStackOps(op: Mnemonic)
    requires Kind(op) != Stacking && Kind(op) != Calling
    ensures Pushed(op) == 0
  {
  }

  lemma SameByte(b: byte)
    ensures ToByte(b - 0) == b
  {
  }

  lemma EffectMovesSp(bus: Bus, s: State, op: Mnemonic, m: AddrMode)
    requires op != TXS
    ensures Effect(bus, s, op, m).sp == ToByte(s.core.sp - Pushed(op))
  {
    hide Kind, Pushed, Load, Modify, Transfer, StackOp, Alu, FlagOp, ToByte, MemWrite, RegOf;
    if Kind(op) == Stacking || Kind(op) == Calling {
      StackOpMovesSp(s.core, s.pc, op);
    } else {
      PushedOnlyByStackOps(op);
      SameByte(s.core.sp);
      LoadedReg(op);
      TransferKeeps(s.core, op);
      AluKeeps(s.core, op, Operand(bus, s, m));
      LoadKeeps(bus, s, m, RegOf(op));
      ModifyKeepsSp(bus, s, op, m);
    }
  }

  /** Pushes less pulls over a whole run, counting each instruction. */
  function Balance(ops: seq<Mnemonic>): int {
    var count := multiset(ops);
    var pushed: int := count[PHA] + count[PHP] + 2 * count[JSR];
    var pulled: int := count[PLA] + count[PLP] + 2 * count[RTS];
    pushed - pulled
  }

  lemma BalanceOfCons(op: Mnemonic, ops: seq<Mnemonic>)
    ensures Balance([op] + ops) == Pushed(op) + Balance(ops)
  {
    assert multiset([op] + ops) == multiset{op} + multiset(ops);
  }

  lemma ShiftSum(a: int, b: int, sp: byte)
    ensures ToByte(ToByte(sp - a) - b) == ToByte(sp - (a + b))
  {
  }

  /** Over every run without TXS the stack pointer moves by exactly the balance of pushes and pulls. */
  lemma {:induction false} StackPointerConserved(bus: Bus, s: State, n: nat)
    requires Run(bus, s, n).Running? && TXS !in Executed(bus, s, n)
    ensures Run(bus, s, n).state.core.sp == ToByte(s.core.sp - Balance(Executed(bus, s, n)))
    decreases n
  {
    hide Step, Balance, ToByte;
    if n == 0 {
      assert Balance([]) == 0 && ToByte(s.core.sp) == s.core.sp by {
        EmptyBalance(s.core.sp);
      }
    } else {
      var s' := Step(bus, s).state;
      var op := NextOpcode(bus, s).name;
      StackPointerConserved(bus, s', n - 1);
      StepMovesSp(bus, s);
      BalanceOfCons(op, Executed(bus, s', n - 1));
      ShiftSum(Pushed(op), Balance(Executed(bus, s', n - 1)), s.core.sp);
    }
  }

  lemma EmptyBalance(sp: byte)
    ensures Balance([]) == 0 && ToByte(sp) == sp
  {
  }

  lemma StepMovesSp(bus: Bus, s: State)
    requires Step(bus, s).Running? && NextOpcode(bus, s).name != TXS
    ensures Step(bus, s).state.core.sp == ToByte(s.core.sp - Pushed(NextOpcode(bus, s).name))
  {
    hide Effect, CurrentOpcode, NextPc, Step, Taken, Target, Pushed;
    StepIsExec(bus, s);
    var opcode := NextOpcode(bus, s);
    EffectMovesSp(bus, State(NextPc(bus, s), INVALID_ADDRESS, s.core), opcode.name, opcode.mode);
  }

  // ---------- the status flags ----------

  /** How one instruction other than PLP may change the flags. */
  predicate FlagStep(p: Flags, op: Mnemonic, p': Flags) {
    && p'.d == (if op == SED then true else if op == CLD then false else p.d)
    && p'.i == (if op == SEI then true else if op == CLI then false else p.i)
    && p'.b == p.b && p'.u == p.u
    && (p'.v ==> p.v)
    && (p'.n && p'.z ==> p.n && p.z)
  }

  // Flags other than C, N and Z are left alone, V is perhaps cleared, and N and Z are not newly set together.
  predicate Settled(p: Flags, p': Flags) {
    && p' == p.(c := p'.c, n := p'.n, z := p'.z, v := p'.v)
    && (p'.v ==> p.v) && (p'.n && p'.z ==> p.n && p.z)
  }

  lemma SettledSteps(p: Flags, op: Mnemonic, p': Flags)
    requires Settled(p, p') && Kind(op) != Flagging
    ensures FlagStep(p, op, p')
  {
  }

  lemma TransferSettles(c: Core, op: Mnemonic)
    ensures Settled(c.p, Transfer(c, op).p)
  {
    hide ToByte;
  }

  lemma StackOpSettles(c: Core, pc: word, op: Mnemonic)
    requires op != PLP
    ensures Settled(c.p, StackOp(c, pc, op).p)
  {
    hide Unpack, Pack, ToByte;
  }

  lemma AluSettles(c: Core, op: Mnemonic, v: byte)
    ensures Settled(c.p, Alu(c, op, v).p)
  {
    hide BitAnd, BitOr, BitXor, Unpack, Pack, ToByte;
  }

  lemma LoadSettles(bus: Bus, s: State, m: AddrMode, r: Reg)
    requires r != RegSP && r != RegP && r != RegInvalid
    ensures Settled(s.core.p, Load(bus, s, m, r).p)
  {
    hide MemRead, Addr, Unpack, Pack;
  }

  lemma ShiftSettles(bus: Bus, s: State, m: AddrMode, left: bool, fill: bool)
    ensures Settled(s.core.p, Shift(bus, s, m, left, fill).p)
  {
    hide MemRead, MemWrite, Addr, Shifted, ShiftedOut;
  }

  lemma IncMemSettles(bus: Bus, c: Core, addr: word, delta: int)
    ensures Settled(c.p, IncMem(bus, c, addr, delta).p)
  {
    hide MemRead, MemInc;
  }

  lemma ModifySettles(bus: Bus, s: State, op: Mnemonic, m: AddrMode)
    ensures Settled(s.core.p, Modify(bus, s, op, m).p)
  {
    hide Shift, IncMem, Addr;
    if op == INC || op == DEC {
      IncMemSettles(bus, s.core, Addr(bus, s, m), if op == INC then 1 else -1);
    } else {
      ShiftSettles(bus, s, m, ShiftsLeft(op), Rotates(op) && s.core.p.c);
    }
  }

  lemma FlagOpSteps(p: Flags, op: Mnemonic)
    requires Kind(op) == Flagging
    ensures FlagStep(p, op, FlagOp(p, op))
  {
  }

  lemma EffectSettles(bus: Bus, s: State, op: Mnemonic, m: AddrMode)
    requires op != PLP && Kind(op) != Flagging
    ensures Settled(s.core.p, Effect(bus, s, op, m).p)
  {
    hide Kind, Load, Modify, Transfer, StackOp, Alu, FlagOp, MemWrite, RegOf, Settled;
    LoadedReg(op);
    TransferSettles(s.core, op);
    StackOpSettles(s.core, s.pc, op);
    AluSettles(s.core, op, Operand(bus, s, m));
    LoadSettles(bus, s, m, RegOf(op));
    ModifySettles(bus, s, op, m);
    SettledSame(s.core.p);
  }

  lemma SettledSame(p: Flags)
    ensures Settled(p, p)
  {
  }

  lemma EffectStepsFlags(bus: Bus, s: State, op: Mnemonic, m: AddrMode)
    requires op != PLP
    ensures FlagStep(s.core.p, op, Effect(bus, s, op, m).p)
  {
    hide Load, Modify, Transfer, StackOp, Alu, FlagOp, MemWrite, RegOf, Settled, FlagStep, Operand, Store;
    if Kind(op) == Flagging {
      FlagOpSteps(s.core.p, op);
    } else {
      EffectSettles(bus, s, op, m);
      SettledSteps(s.core.p, op, Effect(bus, s, op, m).p);
    }
  }

  /** The last of two instructions to occur decides: true for the first, false for the second. */
  function LastOf(ops: seq<Mnemonic>, on: Mnemonic, off: Mnemonic, initial: bool): bool {
    if ops == [] then initial
    else LastOf(ops[1..], on, off, if ops[0] == on then true else if ops[0] == off then false else initial)
  }

  /**
   * Over every run without PLP: D and I are what the last SED/CLD and SEI/CLI made them, B and bit 5
   * stay as they were, V is never set, and N and Z do not come to be set together.
   */
  lemma {:induction false} FlagsOverRun(bus: Bus, s: State, n: nat)
    requires Run(bus, s, n).Running? && PLP !in Executed(bus, s, n)
    ensures var p := s.core.p;
            var p' := Run(bus, s, n).state.core.p;
            var ops := Executed(bus, s, n);
            && p'.d == LastOf(ops, SED, CLD, p.d) && p'.i == LastOf(ops, SEI, CLI, p.i)
            && p'.b == p.b && p'.u == p.u && (p'.v ==> p.v) && (p'.n && p'.z ==> p.n && p.z)
    decreases n
  {
    hide Step;
    if n > 0 {
      var s' := Step(bus, s).state;
      var op := NextOpcode(bus, s).name;
      FlagsOverRun(bus, s', n - 1);
      StepStepsFlags(bus, s);
      assert Executed(bus, s, n)[1..] == Executed(bus, s', n - 1);
    }
  }

  lemma StepStepsFlags(bus: Bus, s: State)
    requires Step(bus, s).Running? && NextOpcode(bus, s).name != PLP
    ensures FlagStep(s.core.p, NextOpcode(bus, s).name, Step(bus, s).state.core.p)
  {
    hide Effect, CurrentOpcode, NextPc, Step, Taken, Target, FlagStep;
    StepIsExec(bus, s);
    var opcode := NextOpcode(bus, s);
    EffectStepsFlags(bus, State(NextPc(bus, s), INVALID_ADDRESS, s.core), opcode.name, opcode.mode);
  }

  /** From power-on no run without PLP ever sets V, B or bit 5, or N and Z together. */
  lemma FlagsFromPowerOn(bus: Bus, pc: word, start: word, mem: Memory, n: nat)
    requires var s := State(pc, start, Cleared().(mem := mem));
             Run(bus, s, n).Running? && PLP !in Executed(bus, s, n)
    ensures var p := Run(bus, State(pc, start, Cleared().(mem := mem)), n).state.core.p;
            !p.v && !p.b && !p.u && !(p.n && p.z)
  {
    hide Step;
    FlagsOverRun(bus, State(pc, start, Cleared().(mem := mem)), n);
  }
}
