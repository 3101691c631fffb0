/** A subroutine call returns: JSR, any sheltered run, and the RTS at the same level meet again. */
module CallReturn {
  import opened Bytes
  import opened Footprints
  import opened Opcodes
  import opened Machine
  import opened RunInvariants

  // ---------- the frame of one call ----------

  // The cells that hold the return address of a call made with stack pointer sp.
  function HighCell(sp: byte): word { StackCell(sp) }

  function LowCell(sp: byte): word { StackCell(ToByte(sp - 1)) }

  // The stack pointer at a given depth below the return address.
  function SpAt(sp: byte, depth: int): byte { ToByte(sp - 2 - depth) }

  const MAX_DEPTH := 254

  /** One instruction that leaves the frame of a call made with stack pointer sp alone. */
  predicate StepShelters(bus: Bus, s: State, depth: int, sp: byte) {
    var here := State(NextPc(bus, s), INVALID_ADDRESS, s.core);
    var opcode := NextOpcode(bus, s);
    && Step(bus, s).Running?
    && opcode.name != TXS
    && 0 <= depth + Pushed(opcode.name) <= MAX_DEPTH
    && StoreCell(bus, here, opcode.name, opcode.mode) != Some(HighCell(sp))
    && StoreCell(bus, here, opcode.name, opcode.mode) != Some(LowCell(sp))
  }

  /**
   * n steps with no TXS and no store to the two return-address cells, whose stack depth below the
   * return address starts at depth and stays between 0 and MAX_DEPTH; calls may nest and interleave.
   */
  ghost predicate Sheltered(bus: Bus, s: State, n: nat, depth: int, sp: byte)
    decreases n
  {
    n > 0 ==>
      && StepShelters(bus, s, depth, sp)
      && Sheltered(bus, Step(bus, s).state, n - 1, depth + Pushed(NextOpcode(bus, s).name), sp)
  }

  /** A push inside the frame cannot reach the return address, whose cells lie a full turn away. */
  lemma PushesMissFrame(sp: byte, depth: int, op: Mnemonic)
    requires 0 <= depth && depth + Pushed(op) <= MAX_DEPTH
    ensures !Pushes(SpAt(sp, depth), op, HighCell(sp)) && !Pushes(SpAt(sp, depth), op, LowCell(sp))
  {
    hide ToByte, SpAt;
    if op == PHA || op == PHP || op == JSR {
      DepthMissesFrame(sp, depth);
    }
    if op == JSR {
      DepthMissesFrame(sp, depth + 1);
      NextDepth(sp, depth);
    }
  }

  lemma DepthMissesFrame(sp: byte, depth: int)
    requires 0 <= depth < MAX_DEPTH
    ensures SpAt(sp, depth) != sp && SpAt(sp, depth) != ToByte(sp - 1)
  {
    ToByteNear(sp - 2 - depth);
    ToByteNear(sp - 1);
    hide ToByte;
  }

  lemma ToByteNear(n: int)
    requires -0x100 <= n < 0x100
    ensures ToByte(n) == if n < 0 then n + 0x100 else n
  {
  }

  lemma NextDepth(sp: byte, depth: int)
    ensures ToByte(SpAt(sp, depth) - 1) == SpAt(sp, depth + 1)
  {
  }

  /** Beyond MAX_DEPTH it does: the next push lands on the return address. */
  lemma PushAtLimitHitsFrame(sp: byte)
    ensures Pushes(SpAt(sp, MAX_DEPTH), PHA, HighCell(sp))
  {
  }

  lemma StepKeepsFrame(bus: Bus, s: State, depth: int, sp: byte)
    requires 0 <= depth <= MAX_DEPTH && s.core.sp == SpAt(sp, depth) && StepShelters(bus, s, depth, sp)
    ensures var s' := Step(bus, s).state;
            && s'.core.sp == SpAt(sp, depth + Pushed(NextOpcode(bus, s).name))
            && s'.core.mem[HighCell(sp)] == s.core.mem[HighCell(sp)]
            && s'.core.mem[LowCell(sp)] == s.core.mem[LowCell(sp)]
  {
    hide Effect, CurrentOpcode, NextPc, Step, Taken, Target, Pushed, StoreCell, Pushes, HighCell, LowCell, ToByte;
    var here := State(NextPc(bus, s), INVALID_ADDRESS, s.core);
    var opcode := NextOpcode(bus, s);
    StepIsExec(bus, s);
    StepMovesSp(bus, s);
    ShiftSum(2 + depth, Pushed(opcode.name), sp);
    PushesMissFrame(sp, depth, opcode.name);
    EffectTouches(bus, here, opcode.name, opcode.mode, HighCell(sp));
    EffectTouches(bus, here, opcode.name, opcode.mode, LowCell(sp));
  }

  lemma {:induction false} RunKeepsFrame(bus: Bus, s: State, n: nat, depth: int, sp: byte)
    requires 0 <= depth <= MAX_DEPTH && s.core.sp == SpAt(sp, depth) && Sheltered(bus, s, n, depth, sp)
    ensures Run(bus, s, n).Running?
    ensures var s' := Run(bus, s, n).state;
            && s'.core.sp == SpAt(sp, depth + Balance(Executed(bus, s, n)))
            && s'.core.mem[HighCell(sp)] == s.core.mem[HighCell(sp)]
            && s'.core.mem[LowCell(sp)] == s.core.mem[LowCell(sp)]
    decreases n
  {
    hide Step, Balance, SpAt, HighCell, LowCell, StepShelters, NextOpcode, Pushed;
    if n == 0 {
      EmptyBalance(sp);
    } else {
      ShelteredDepth(bus, s, depth, sp);
      StepKeepsFrame(bus, s, depth, sp);
      var s' := Step(bus, s).state;
      var op := NextOpcode(bus, s).name;
      RunKeepsFrame(bus, s', n - 1, depth + Pushed(op), sp);
      BalanceOfCons(op, Executed(bus, s', n - 1));
    }
  }

  lemma ShelteredDepth(bus: Bus, s: State, depth: int, sp: byte)
    requires StepShelters(bus, s, depth, sp)
    ensures Step(bus, s).Running? && 0 <= depth + Pushed(NextOpcode(bus, s).name) <= MAX_DEPTH
  {
    hide Step, StoreCell, NextOpcode, Pushed;
  }

  // ---------- the two ends of the call ----------

  lemma CallMakesFrame(bus: Bus, s: State)
    requires Step(bus, s).Running? && NextOpcode(bus, s).name == JSR
    ensures var s' := Step(bus, s).state;
            && s'.core.sp == SpAt(s.core.sp, 0)
            && s'.core.mem[HighCell(s.core.sp)] == HighByte(NextPc(bus, s) + 2)
            && s'.core.mem[LowCell(s.core.sp)] == LowByte(NextPc(bus, s) + 2)
    ensures NextPc(bus, s) < RESERVED_START
  {
    hide Exec, NextOpcode, NextPc, Step, Push16, HighCell, LowCell, SpAt, HighByte, LowByte;
    StepIsExec(bus, s);
    var here := State(NextPc(bus, s), INVALID_ADDRESS, s.core);
    CallPushes(bus, here, NextOpcode(bus, s).mode);
    FramePushed(s.core, NextPc(bus, s) + 2);
  }

  lemma CallPushes(bus: Bus, s: State, m: AddrMode)
    requires s.pc < RESERVED_START
    ensures Exec(bus, s, JSR, m).core == Push16(s.core, s.pc + 2)
  {
    hide Push16, Target;
  }

  lemma FramePushed(c: Core, v: word)
    ensures var c' := Push16(c, v);
            && c'.sp == SpAt(c.sp, 0)
            && c'.mem[HighCell(c.sp)] == HighByte(v) && c'.mem[LowCell(c.sp)] == LowByte(v)
  {
    hide HighByte, LowByte;
  }

  lemma ReturnTakesFrame(bus: Bus, s: State, sp: byte)
    requires Step(bus, s).Running? && NextOpcode(bus, s).name == RTS && s.core.sp == SpAt(sp, 0)
    ensures var s' := Step(bus, s).state;
            && s'.core.sp == sp
            && s'.branched ==
               ToWord(MakeWord(s.core.mem[HighCell(sp)], s.core.mem[LowCell(sp)]) + 1)
  {
    hide Exec, NextOpcode, NextPc, Step, Popped, Top16, HighCell, LowCell, SpAt;
    StepIsExec(bus, s);
    var here := State(NextPc(bus, s), INVALID_ADDRESS, s.core);
    ReturnPops(bus, here, NextOpcode(bus, s).mode);
    FrameOnTop(s.core, sp);
  }

  lemma ReturnPops(bus: Bus, s: State, m: AddrMode)
    ensures Exec(bus, s, RTS, m) ==
            State(s.pc, ToWord(Top16(s.core) + 1), Popped(Popped(s.core)))
  {
    hide Popped, Top16;
  }

  lemma FrameOnTop(c: Core, sp: byte)
    requires c.sp == SpAt(sp, 0)
    ensures Popped(Popped(c)).sp == sp
    ensures Top16(c) == MakeWord(c.mem[HighCell(sp)], c.mem[LowCell(sp)])
  {
    assert ToByte(c.sp + 1) == ToByte(sp - 1) && ToByte(ToByte(c.sp + 1) + 1) == sp;
  }

  /**
   * JSR at pc, then any sheltered run that is back at the level of the call, then RTS: the next
   * instruction is the one at pc+3, and the stack pointer is what it was before the JSR.
   */
  lemma CallReturns(bus: Bus, s: State, n: nat)
    requires Step(bus, s).Running? && NextOpcode(bus, s).name == JSR
    requires Sheltered(bus, Step(bus, s).state, n, 0, s.core.sp)
    requires Balance(Executed(bus, Step(bus, s).state, n)) == 0
    requires Run(bus, s, n + 2).Running? && Run(bus, s, n + 1).Running?
    requires NextOpcode(bus, Run(bus, s, n + 1).state).name == RTS
    ensures NextPc(bus, Run(bus, s, n + 2).state) == NextPc(bus, s) + 3
    ensures Run(bus, s, n + 2).state.core.sp == s.core.sp
  {
    hide Step, Run, Balance, Executed, Sheltered, SpAt, HighCell, LowCell, NextOpcode, NextPc, MakeWord, HighByte,
      LowByte, ToByte;
    CallMakesFrame(bus, s);
    var s1 := Step(bus, s).state;
    SpAtEntry(s.core.sp);
    RunKeepsFrame(bus, s1, n, 0, s.core.sp);
    CallRun(bus, s, n);
    var s2 := Run(bus, s1, n).state;
    ReturnTakesFrame(bus, s2, s.core.sp);
    ReturnAddress(bus, Step(bus, s2).state, NextPc(bus, s));
  }

  lemma CallRun(bus: Bus, s: State, n: nat)
    requires Step(bus, s).Running? && Run(bus, Step(bus, s).state, n).Running?
    ensures Run(bus, s, n + 1) == Run(bus, Step(bus, s).state, n)
    ensures Run(bus, s, n + 2) == Step(bus, Run(bus, Step(bus, s).state, n).state)
  {
    hide Step;
    RunSplit(bus, s, n + 1, 1);
    OneStep(bus, Run(bus, Step(bus, s).state, n).state);
  }

  lemma SpAtEntry(sp: byte)
    ensures SpAt(sp, 0) == ToByte(sp - 2)
  {
  }

  lemma ReturnAddress(bus: Bus, s: State, pc: word)
    requires pc < RESERVED_START
    requires s.branched == ToWord(MakeWord(HighByte(pc + 2), LowByte(pc + 2)) + 1)
    ensures NextPc(bus, s) == pc + 3
  {
    hide LengthAt;
  }

  // ---------- a call there is ----------

  /** JSR $0300 at 0x200; PHA, PLA and RTS at 0x300. */
  function CallingState(core: Core): State {
    var mem: Memory := core.mem[0x200 := 0x20][0x201 := 0x00][0x202 := 0x03];
    State(0, 0x200, core.(mem := mem[0x300 := 0x48][0x301 := 0x68][0x302 := 0x60]))
  }

  lemma OpcodesOfCall()
    ensures Decode(0x20) == Opcode(JSR, Absolute) && Decode(0x48) == Opcode(PHA, Implied)
    ensures Decode(0x68) == Opcode(PLA, Implied) && Decode(0x60) == Opcode(RTS, Implied)
  {
  }

  /** A step without hooks, at a known opcode byte. */
  lemma PlainStep(s: State, at: word)
    requires NextPc(PLAIN_BUS, s) == at < RESERVED_START
    ensures NextOpcode(PLAIN_BUS, s) == Decode(s.core.mem[at])
    ensures var opcode := Decode(s.core.mem[at]);
            Step(PLAIN_BUS, s) == Running(Exec(PLAIN_BUS, State(at, INVALID_ADDRESS, s.core), opcode.name, opcode.mode))
  {
    hide Decode, Exec;
    StepIsExec(PLAIN_BUS, s);
  }

  predicate CodeThere(mem: Memory) {
    mem[0x200] == 0x20 && mem[0x201] == 0x00 && mem[0x202] == 0x03 &&
    mem[0x300] == 0x48 && mem[0x301] == 0x68 && mem[0x302] == 0x60
  }

  lemma PushKeepsCode(c: Core, v: byte)
    requires CodeThere(c.mem)
    ensures CodeThere(Push(c, v).mem)
  {
  }

  lemma CallStep(s: State)
    requires NextPc(PLAIN_BUS, s) == 0x200 && CodeThere(s.core.mem)
    ensures NextOpcode(PLAIN_BUS, s).name == JSR
    ensures Step(PLAIN_BUS, s) == Running(State(0x200, 0x300, Push16(s.core, 0x202)))
    ensures CodeThere(Push16(s.core, 0x202).mem)
  {
    OpcodesOfCall();
    hide Decode, NextPc, Step, Push, CodeThere;
    PlainStep(s, 0x200);
    PushKeepsCode(s.core, HighByte(0x202));
    PushKeepsCode(Push(s.core, HighByte(0x202)), LowByte(0x202));
    CallTarget(State(0x200, INVALID_ADDRESS, s.core));
    assert s.core.mem[0x200] == 0x20 by {
      CodeBytes(s.core.mem);
    }
  }

  lemma CodeBytes(mem: Memory)
    requires CodeThere(mem)
    ensures mem[0x200] == 0x20 && mem[0x300] == 0x48 && mem[0x301] == 0x68 && mem[0x302] == 0x60
  {
  }

  lemma CallTarget(s: State)
    requires s.pc == 0x200 && CodeThere(Push16(s.core, 0x202).mem)
    ensures Target(PLAIN_BUS, s, JSR, Absolute) == 0x300
  {
    hide Push16;
  }

  lemma OneByteStep(s: State, at: word, op: Mnemonic)
    requires at < RESERVED_START && NextPc(PLAIN_BUS, s) == at && Decode(s.core.mem[at]) == Opcode(op, Implied)
    requires !Kind(op).Jumping? && !Kind(op).Calling?
    ensures NextOpcode(PLAIN_BUS, s).name == op
    ensures var core := Effect(PLAIN_BUS, State(at, INVALID_ADDRESS, s.core), op, Implied);
            && Step(PLAIN_BUS, s) == Running(State(at, INVALID_ADDRESS, core))
            && (core.mem[at] == s.core.mem[at] ==> NextPc(PLAIN_BUS, State(at, INVALID_ADDRESS, core)) == at + 1)
  {
    hide Decode, Effect, Step;
    PlainStep(s, at);
    assert !Taken(s.core.p, op);
  }

  lemma PushAndPull(s: State)
    requires NextPc(PLAIN_BUS, s) == 0x300 && CodeThere(s.core.mem)
    ensures Step(PLAIN_BUS, s).Running? && NextOpcode(PLAIN_BUS, s).name == PHA
    ensures var s1 := Step(PLAIN_BUS, s).state;
            && Step(PLAIN_BUS, s1).Running? && NextOpcode(PLAIN_BUS, s1).name == PLA
            && NextPc(PLAIN_BUS, Step(PLAIN_BUS, s1).state) == 0x302
            && CodeThere(Step(PLAIN_BUS, s1).state.core.mem)
  {
    OpcodesOfCall();
    hide Decode, NextPc, Step, NextOpcode, Push, PullReg, CodeThere;
    CodeBytes(s.core.mem);
    OneByteStep(s, 0x300, PHA);
    var s1 := State(0x300, INVALID_ADDRESS, Push(s.core, s.core.a));
    PushKeepsCode(s.core, s.core.a);
    CodeBytes(s1.core.mem);
    OneByteStep(s1, 0x301, PLA);
    PullKeepsMemory(s1.core);
  }

  lemma PullKeepsMemory(c: Core)
    ensures PullReg(c, RegA).mem == c.mem
  {
  }

  lemma PushAndPullShelter(s: State, depth: int, op: Mnemonic, sp: byte)
    requires Step(PLAIN_BUS, s).Running? && NextOpcode(PLAIN_BUS, s).name == op
    requires (op == PHA && depth == 0) || (op == PLA && depth == 1)
    ensures StepShelters(PLAIN_BUS, s, depth, sp)
  {
    hide Step, NextOpcode, NextPc, Addr;
  }

  /** The conditions of CallReturns can be met: a call of a subroutine that pushes and pulls. */
  lemma CallExample(core: Core)
    ensures var s := CallingState(core);
            var s1 := Step(PLAIN_BUS, s).state;
            && Step(PLAIN_BUS, s).Running? && NextOpcode(PLAIN_BUS, s).name == JSR
            && Sheltered(PLAIN_BUS, s1, 2, 0, s.core.sp)
            && Balance(Executed(PLAIN_BUS, s1, 2)) == 0
            && Run(PLAIN_BUS, s1, 2).Running?
            && NextOpcode(PLAIN_BUS, Run(PLAIN_BUS, s1, 2).state).name == RTS
            && Step(PLAIN_BUS, Run(PLAIN_BUS, s1, 2).state).Running?
  {
    var s := CallingState(core);
    assert CodeThere(s.core.mem) && NextPc(PLAIN_BUS, s) == 0x200;
    hide NextPc, Step, CodeThere, Balance, Executed, Run, Sheltered, StepShelters, NextOpcode, Push16, CallingState;
    CallStep(s);
    var s1 := Step(PLAIN_BUS, s).state;
    assert NextPc(PLAIN_BUS, s1) == 0x300 by {
      PendingIsNext(s1);
    }
    PushAndPull(s1);
    var s2 := Step(PLAIN_BUS, s1).state;
    PushAndPullShelter(s1, 0, PHA, s.core.sp);
    PushAndPullShelter(s2, 1, PLA, s.core.sp);
    TwoSteps(PLAIN_BUS, s1, s.core.sp);
    PushPullBalance();
    ReturnFollows(Step(PLAIN_BUS, s2).state);
  }

  lemma TwoSteps(bus: Bus, s: State, sp: byte)
    requires StepShelters(bus, s, 0, sp)
    requires StepShelters(bus, Step(bus, s).state, Pushed(NextOpcode(bus, s).name), sp)
    ensures var s1 := Step(bus, s).state;
            && Sheltered(bus, s, 2, 0, sp)
            && Run(bus, s, 2) == Step(bus, s1)
            && Executed(bus, s, 2) == [NextOpcode(bus, s).name, NextOpcode(bus, s1).name]
  {
    hide Step, NextOpcode, Pushed, StepShelters;
    ShelteredDepth(bus, s, 0, sp);
    var s1 := Step(bus, s).state;
    ShelteredDepth(bus, s1, Pushed(NextOpcode(bus, s).name), sp);
    OneStep(bus, s1);
    var s2 := Step(bus, s1).state;
    assert Sheltered(bus, s1, 1, Pushed(NextOpcode(bus, s).name), sp);
    assert Executed(bus, s1, 1) == [NextOpcode(bus, s1).name] + Executed(bus, s2, 0);
  }

  lemma PushPullBalance()
    ensures Balance([PHA, PLA]) == 0
  {
    hide Balance;
    BalanceOfCons(PLA, []);
    BalanceOfCons(PHA, [PLA]);
    EmptyBalance(0);
    assert [PHA] + [PLA] == [PHA, PLA] && [PLA] + [] == [PLA];
  }

  lemma PendingIsNext(s: State)
    requires s.branched != INVALID_ADDRESS
    ensures NextPc(PLAIN_BUS, s) == s.branched
  {
  }

  lemma ReturnFollows(s: State)
    requires NextPc(PLAIN_BUS, s) == 0x302 && CodeThere(s.core.mem)
    ensures NextOpcode(PLAIN_BUS, s).name == RTS && Step(PLAIN_BUS, s).Running?
  {
    hide Decode, NextPc, Step, NextOpcode;
    OpcodesOfCall();
    PlainStep(s, 0x302);
  }
}
