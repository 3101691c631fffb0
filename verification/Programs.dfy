/** Straight code in memory: what the machine does at an instruction whose bytes are known. */
module Programs {
  import opened Bytes
  import opened Opcodes
  import opened Machine
  import StatusRegister

  lemma PlainRead(bus: Bus, mem: Memory, addr: word)
    requires Plain(bus, addr)
    ensures MemRead(bus, mem, addr) == mem[addr]
  {
  }

  lemma WordBytes(w: word)
    ensures MakeWord(HighByte(w), LowByte(w)) == w
  {
  }

  ghost predicate PlainRange(bus: Bus, addr: int, n: nat) {
    0 <= addr && addr + n <= 0x1_0000 && forall a: word :: addr <= a < addr + n ==> Plain(bus, a)
  }

  lemma SubRange(bus: Bus, addr: int, n: nat, addr': int, n': nat)
    requires PlainRange(bus, addr, n) && addr <= addr' && addr' + n' <= addr + n
    ensures PlainRange(bus, addr', n')
  {
    hide Plain;
  }

  /** The opcode byte at an address and the operand behind it, low byte first. */
  predicate Code(mem: Memory, at: int, op: Mnemonic, mode: AddrMode, operand: int)
    requires 0 <= at < 0xFFFD && 0 <= operand < 0x1_0000
  {
    && Decode(mem[at]) == Opcode(op, mode)
    && match Length(mode)
       case 1 => operand == 0
       case 2 => mem[at + 1] == operand
       case _ => mem[at + 1] == LowByte(operand) && mem[at + 2] == HighByte(operand)
  }

  lemma CodeDepends(mem: Memory, mem': Memory, at: int, op: Mnemonic, mode: AddrMode, operand: int)
    requires 0 <= at < 0xFFFD && 0 <= operand < 0x1_0000 && Code(mem, at, op, mode, operand)
    requires forall a :: at <= a < at + Length(mode) ==> mem'[a] == mem[a]
    ensures Code(mem', at, op, mode, operand)
  {
    hide Decode, LowByte, HighByte;
  }

  /** The machine is about to execute the instruction at an address. */
  predicate AtPc(bus: Bus, s: State, at: int) { NextPc(bus, s) == at }

  /** The state in which the instruction at an address executes. */
  function Here(s: State, at: word): State { State(at, INVALID_ADDRESS, s.core) }

  lemma ByteIsRead(bus: Bus, s: State, v: byte)
    requires s.pc < RESERVED_START && PlainRange(bus, s.pc, 2) && s.core.mem[s.pc + 1] == v
    ensures OperandByte(bus, s) == v
  {
    hide Plain, MemRead;
    PlainRead(bus, s.core.mem, s.pc + 1);
  }

  lemma WordIsRead(bus: Bus, s: State, w: word)
    requires s.pc < RESERVED_START && PlainRange(bus, s.pc, 3)
    requires s.core.mem[s.pc + 1] == LowByte(w) && s.core.mem[s.pc + 2] == HighByte(w)
    ensures OperandWord(bus, s) == w
  {
    hide Plain, MemRead, LowByte, HighByte, MakeWord;
    PlainRead(bus, s.core.mem, s.pc + 1);
    PlainRead(bus, s.core.mem, s.pc + 2);
    WordBytes(w);
  }

  lemma CodeIsRead(bus: Bus, s: State, op: Mnemonic, mode: AddrMode, operand: word)
    requires s.pc < RESERVED_START && PlainRange(bus, s.pc, Length(mode)) && Code(s.core.mem, s.pc, op, mode, operand)
    ensures CurrentOpcode(bus, s.core.mem, s.pc) == Opcode(op, mode)
    ensures Length(mode) == 2 ==> OperandByte(bus, s) == operand
    ensures Length(mode) == 3 ==> OperandWord(bus, s) == operand
  {
    hide Decode, Plain, MemRead, Length, OperandByte, OperandWord, LowByte, HighByte;
    PlainRead(bus, s.core.mem, s.pc);
    if Length(mode) == 2 {
      ByteIsRead(bus, s, operand);
    } else if Length(mode) == 3 {
      WordIsRead(bus, s, operand);
    }
  }

  /** One step over an instruction: where the machine goes on, unless it takes a branch to 0xFFFF. */
  lemma CodeStep(bus: Bus, s: State, at: word, op: Mnemonic, mode: AddrMode, operand: word)
    requires at < RESERVED_START && AtPc(bus, s, at) && PlainRange(bus, at, Length(mode))
    requires Code(s.core.mem, at, op, mode, operand)
    ensures var here := Here(s, at);
            var s' := Exec(bus, here, op, mode);
            && Step(bus, s) == Running(s')
            && (Taken(s.core.p, op) && Target(bus, here, op, mode) != INVALID_ADDRESS ==>
                  AtPc(bus, s', Target(bus, here, op, mode)))
            && (!Taken(s.core.p, op) && s'.core.mem[at] == s.core.mem[at] ==> AtPc(bus, s', at + Length(mode)))
  {
    hide Effect, Taken, Target, Code, Plain, CurrentOpcode, Decode, Step;
    CodeIsRead(bus, Here(s, at), op, mode, operand);
    StepIsExec(bus, s);
    var s' := Exec(bus, Here(s, at), op, mode);
    if !Taken(s.core.p, op) && s'.core.mem[at] == s.core.mem[at] {
      assert Decode(s.core.mem[at]) == Opcode(op, mode) by {
        CodeOpcode(s.core.mem, at, op, mode, operand);
      }
      LengthThere(bus, s', mode);
    }
  }

  lemma CodeOpcode(mem: Memory, at: int, op: Mnemonic, mode: AddrMode, operand: int)
    requires 0 <= at < 0xFFFD && 0 <= operand < 0x1_0000 && Code(mem, at, op, mode, operand)
    ensures Decode(mem[at]) == Opcode(op, mode)
  {
  }

  lemma LengthThere(bus: Bus, s: State, mode: AddrMode)
    requires s.pc < RESERVED_START && s.branched == INVALID_ADDRESS && Plain(bus, s.pc)
    requires Decode(s.core.mem[s.pc]).mode == mode
    ensures NextPc(bus, s) == s.pc + Length(mode)
  {
    hide Decode;
  }

  lemma NotTaken(p: StatusRegister.Flags, op: Mnemonic)
    requires !Kind(op).Jumping? && !Kind(op).Calling?
    ensures !Taken(p, op)
  {
  }

  lemma ThreeSteps(bus: Bus, s: State)
    requires Step(bus, s).Running? && Step(bus, Step(bus, s).state).Running?
    ensures Run(bus, s, 3) == Step(bus, Step(bus, Step(bus, s).state).state)
  {
    hide Step;
    var s2 := Step(bus, Step(bus, s).state).state;
    OneStep(bus, s2);
    assert Run(bus, Step(bus, s).state, 2) == Run(bus, s2, 1);
  }
}
