/** The processor: addressing, instruction primitives, fetch and execute, and the machine around them. */
module Cpus {
  import opened Bytes
  import opened StatusRegister
  import opened Opcodes
  import opened HookLists
  import opened CpuCores
  import M = Machine
  import Sfot
  import Disassembler

  class Cpu {
    const core: CpuCore
    var branched: word
    var poweredOn: bool
    // Pointers to users' functions, or null. BRK is the only kind of exception.
    var breakHook: Option<nat>
    var stepCallback: Option<nat>

    ghost predicate Valid()
      reads core.hooks.onRead, core.hooks.onWrite, core.hooks.onTransl, core.hooks.Nodes()
    {
      core.Valid()
    }

    ghost function State(): M.State
      requires core.Sized()
      reads this, core, core.regs, core.mem
    {
      M.State(core.pc, branched, core.Value())
    }

    ghost function System(): Sfot.System
      requires core.Sized()
      reads this, core, core.regs, core.mem, core.hooks.onRead, core.hooks.onWrite, core.hooks.onTransl
    {
      Sfot.System(State(), core.hooks.Contents())
    }

    constructor ()
      ensures Valid() && !poweredOn && breakHook == None && stepCallback == None
      ensures System() == Sfot.Fresh()
    {
      core := new CpuCore();
      branched := 0;
      poweredOn := false;
      breakHook, stepCallback := None, None;
    }

    // Returns the pending branch and replaces it in one go.
    method BranchStatus(newBranch: word) returns (oldBranch: word)
      modifies this`branched
      ensures oldBranch == old(branched) && branched == newBranch
    {
      oldBranch := branched;
      branched := newBranch;
    }

    // ---------- addressing ----------

    /** All operand bytes are read before the mode is looked at. */
    method Addr(mode: AddrMode) returns (addr: word)
      requires Valid()
      ensures addr == M.Addr(core.Bus(), State(), mode)
    {
      hide M.MemRead, M.MemRead16, BusOf, Unpack;
      var operand := core.MemRead16(ToWord(core.pc + 1));
      var zeroPage := core.MemRead(ToWord(core.pc + 1));
      match mode {
        case Immediate => addr := ToWord(core.pc + 1);
        case ZeroPage => addr := zeroPage;
        case ZeroPageX => addr := zeroPage + core.GetSreg(M.RegX);
        case ZeroPageY => addr := zeroPage + core.GetSreg(M.RegY);
        case Relative => addr := ToWord(core.pc + 2 + Signed(zeroPage));
        case Absolute => addr := operand;
        case AbsoluteX => addr := ToWord(operand + core.GetSreg(M.RegX));
        case AbsoluteY => addr := ToWord(operand + core.GetSreg(M.RegY));
        case Indirect => addr := core.MemRead16(operand);
        case IndexedIndirect => addr := core.MemRead16(zeroPage + core.GetSreg(M.RegX));
        case IndirectIndexed =>
          var base := core.MemRead16(zeroPage);
          addr := ToWord(base + core.GetSreg(M.RegY));
        case _ => addr := M.INVALID_ADDRESS;
      }
    }

    method AddrModeGetValue(mode: AddrMode) returns (v: byte)
      requires Valid()
      ensures v == M.Operand(core.Bus(), State(), mode)
    {
      var addr := Addr(mode);
      if addr != M.INVALID_ADDRESS {
        v := core.MemRead(addr);
      } else {
        v := if mode == Accumulator then core.GetSreg(M.RegA) else 0;
      }
    }

    // ---------- flag updates ----------

    method FlagsUpdateBasicByValue(v: byte)
      requires core.Sized()
      modifies core.regs
      ensures core.Value() == M.WithBasic(old(core.Value()), v)
    {
      core.SetFlag(FLAG_Z, v == 0);
      core.SetFlag(FLAG_N, Signed(v) < 0);
    }

    method FlagsUpdateBasicByRegister(r: M.Reg)
      requires core.Sized()
      modifies core.regs
      ensures core.Value() == if r == M.RegP || r == M.RegSP then old(core.Value())
                              else M.WithBasic(old(core.Value()), M.GetReg(old(core.Value()), r))
    {
      if r == M.RegP || r == M.RegSP {
        return;
      }
      core.GetSregIsReg(r);
      FlagsUpdateBasicByValue(core.GetSreg(r));
    }

    method FlagsUpdateBasicByMem(addr: word)
      requires Valid()
      modifies core.regs
      ensures core.Value() ==
              M.WithBasic(old(core.Value()), M.MemRead(core.Bus(), core.mem[..], addr))
    {
      var v := core.MemRead(addr);
      FlagsUpdateBasicByValue(v);
    }

    method FlagsUpdateLogicOverflow(v: byte)
      requires core.Sized()
      modifies core.regs
      ensures var c := old(core.Value());
              core.Value() == c.(p := c.p.(v := c.p.v || TestBit(v, 0x40)))
    {
      if TestBit(v, 0x40) {
        core.SetFlag(FLAG_V, true);
      }
    }

    /** Both sides of the comparison are the same sum, so the flag is always cleared. */
    method FlagsUpdateArithOverflow(a: byte, b: byte, factor: int)
      requires core.Sized() && (factor == 1 || factor == -1)
      modifies core.regs
      ensures core.Value() == old(core.Value()).(p := old(core.Value()).p.(v := false))
    {
      var longValue := Signed(a) + Signed(b) * factor;
      core.SetFlag(FLAG_V, longValue != Signed(a) + Signed(b) * factor);
    }

    method FlagsUpdateArithAdcCarry(a: byte, b: byte)
      requires core.Sized()
      modifies core.regs
      ensures var c := old(core.Value());
              core.Value() == c.(p := c.p.(c := a + b + M.Carry(c.p) > 0xFF))
    {
      var longValue := a + b + (if core.GetFlag(FLAG_C) then 1 else 0);
      core.SetFlag(FLAG_C, longValue > 255);
    }

    method FlagsUpdateArithSbcCarry(a: byte, b: byte)
      requires core.Sized()
      modifies core.regs
      ensures var c := old(core.Value());
              core.Value() == c.(p := c.p.(c := a - b - (1 - M.Carry(c.p)) >= 0))
    {
      var longValue: int := a - b - (if core.GetFlag(FLAG_C) then 0 else 1);
      core.SetFlag(FLAG_C, !(longValue < 0));
    }

    method FlagsUpdateArithCmpCarry(a: byte, b: byte)
      requires core.Sized()
      modifies core.regs
      ensures core.Value() == old(core.Value()).(p := old(core.Value()).p.(c := a >= b))
    {
      core.SetFlag(FLAG_C, a >= b);
    }

    method FlagsUpdateShrotCarry(v: byte, left: bool)
      requires core.Sized()
      modifies core.regs
      ensures core.Value() == old(core.Value()).(p := old(core.Value()).p.(c := M.ShiftedOut(v, left)))
    {
      core.SetFlag(FLAG_C, false);
      HighestAndLowestBit(v);
      if left && TestBit(v, 0x80) {
        core.SetFlag(FLAG_C, true);
      }
      if !left && TestBit(v, 0x01) {
        core.SetFlag(FLAG_C, true);
      }
    }

    // ---------- instruction primitives ----------

    method AsmReg2Reg(dest: M.Reg, source: M.Reg)
      requires core.Sized()
      modifies core.regs
      ensures core.Value() == M.LoadReg(old(core.Value()), dest, M.GetReg(old(core.Value()), source))
    {
      core.GetSregIsReg(source);
      core.SetSreg(dest, core.GetSreg(source));
      FlagsUpdateBasicByRegister(dest);
    }

    method AsmReg2Mem(addr: word, source: M.Reg)
      requires Valid()
      modifies core.mem
      ensures core.Value() == M.StoreReg(core.Bus(), old(core.Value()), addr, source)
    {
      core.GetSregIsReg(source);
      core.MemWrite(addr, core.GetSreg(source));
    }

    method AsmMem2Reg(dest: M.Reg, addr: word)
      requires Valid()
      modifies core.regs
      ensures core.Value() == M.LoadReg(old(core.Value()), dest, M.MemRead(core.Bus(), old(core.mem[..]), addr))
    {
      var v := core.MemRead(addr);
      core.SetSreg(dest, v);
      FlagsUpdateBasicByRegister(dest);
    }

    method AsmReg2Stack(source: M.Reg)
      requires core.Sized()
      modifies core.regs, core.mem
      ensures core.Value() == M.Push(old(core.Value()), M.GetReg(old(core.Value()), source))
    {
      core.GetSregIsReg(source);
      core.StackPush(core.GetSreg(source));
    }

    method AsmStack2Reg(dest: M.Reg)
      requires core.Sized()
      modifies core.regs
      ensures core.Value() == M.PullReg(old(core.Value()), dest)
    {
      var v := core.StackPop();
      core.SetSreg(dest, v);
      FlagsUpdateBasicByRegister(dest);
    }

    method AsmPc2Stack()
      requires core.Sized()
      modifies core.regs, core.mem
      ensures core.Value() == M.Push16(old(core.Value()), ToWord(core.pc + 2))
    {
      core.StackPush16(ToWord(core.pc + 2));
    }

    method AsmStack2Pc()
      requires core.Sized()
      modifies this`branched, core.regs
      ensures core.Value() == M.Popped(M.Popped(old(core.Value())))
      ensures branched == ToWord(M.Top16(old(core.Value())) + 1)
    {
      var addr: int := core.StackPop16();
      var _ := BranchStatus(ToWord(addr + 1));
    }

    method AsmMem2Pc(addr: word, condition: bool)
      modifies this`branched
      ensures branched == if condition then addr else old(branched)
    {
      if condition {
        var _ := BranchStatus(addr);
      }
    }

    method AsmIncMem(addr: word, inc: int)
      requires Valid()
      modifies core.regs, core.mem
      ensures core.Value() == M.IncMem(core.Bus(), old(core.Value()), addr, inc)
    {
      core.MemInc(addr, inc);
      FlagsUpdateBasicByMem(addr);
    }

    method AsmIncReg(r: M.Reg, inc: int)
      requires core.Sized()
      modifies core.regs
      ensures core.Value() == M.LoadReg(old(core.Value()), r, ToByte(M.GetReg(old(core.Value()), r) + inc))
    {
      core.GetSregIsReg(r);
      var v: int := core.GetSreg(r);
      core.SetSreg(r, ToByte(v + inc));
      FlagsUpdateBasicByRegister(r);
    }

    /** BIT passes the invalid register, which reads as 0: the operand is masked away. */
    method AsmLogicAnd(r: M.Reg, v: byte)
      requires core.Sized() && (r == M.RegA || r == M.RegInvalid)
      modifies core.regs
      ensures core.Value() == if r == M.RegA then M.And(old(core.Value()), v) else M.BitTest(old(core.Value()))
    {
      var result := BitAnd(core.GetSreg(r), v);
      NothingAnd(v);
      FlagsUpdateBasicByValue(result);
      if r == M.RegInvalid {
        FlagsUpdateLogicOverflow(result);
      }
      core.SetSreg(r, result);
    }

    method AsmLogicEor(v: byte)
      requires core.Sized()
      modifies core.regs
      ensures core.Value() == M.ExclusiveOr(old(core.Value()), v)
    {
      var result := BitXor(core.GetSreg(M.RegA), v);
      FlagsUpdateBasicByValue(core.GetSreg(M.RegA));
      core.SetSreg(M.RegA, result);
    }

    method AsmLogicOra(v: byte)
      requires core.Sized()
      modifies core.regs
      ensures core.Value() == M.InclusiveOr(old(core.Value()), v)
    {
      var result := BitOr(core.GetSreg(M.RegA), v);
      FlagsUpdateBasicByValue(core.GetSreg(M.RegA));
      core.SetSreg(M.RegA, result);
    }

    method AsmArithAdd(v: byte)
      requires core.Sized()
      modifies core.regs
      ensures core.Value() == M.Add(old(core.Value()), v)
    {
      hide TestBit, Unpack;
      core.CarryIsFlag();
      var a: int := core.GetSreg(M.RegA);
      var result := ToByte(a + v + (if core.GetFlag(FLAG_C) then 1 else 0));
      FlagsUpdateBasicByValue(result);
      FlagsUpdateArithAdcCarry(core.GetSreg(M.RegA), v);
      FlagsUpdateArithOverflow(core.GetSreg(M.RegA), v, 1);
      core.SetSreg(M.RegA, result);
    }

    /** Comparisons pass the invalid register as destination and ignore the carry. */
    method AsmArithSub(dest: M.Reg, source: M.Reg, v: byte)
      requires core.Sized() && (dest == source == M.RegA || dest == M.RegInvalid)
      modifies core.regs
      ensures core.Value() == if dest == M.RegA then M.Subtract(old(core.Value()), v)
                              else M.Compare(old(core.Value()), source, v)
    {
      hide TestBit, Unpack, Pack;
      core.CarryIsFlag();
      core.GetSregIsReg(source);
      var a: int := core.GetSreg(source);
      var result := ToByte(a - v);
      if dest != M.RegInvalid {
        result := ToByte(a - v - (if core.GetFlag(FLAG_C) then 0 else 1));
      }
      FlagsUpdateBasicByValue(result);
      if dest != M.RegInvalid {
        FlagsUpdateArithSbcCarry(core.GetSreg(source), v);
        FlagsUpdateArithOverflow(core.GetSreg(source), v, -1);
      } else {
        FlagsUpdateArithCmpCarry(a, v);
      }
      core.SetSreg(dest, result);
    }

    /** Works on memory when the address is valid, and on the accumulator otherwise. */
    method AsmShrot(addr: word, left: bool, fill: bool)
      requires Valid()
      modifies core.regs, core.mem
      ensures core.Value() ==
              if addr != M.INVALID_ADDRESS then M.ShiftMem(core.Bus(), old(core.Value()), addr, left, fill)
              else M.ShiftAcc(old(core.Value()), left, fill)
    {
      hide TestBit, Unpack, M.MemRead, M.MemWrite;
      var v := core.GetSreg(M.RegA);
      if addr != M.INVALID_ADDRESS {
        v := core.MemRead(addr);
      }
      FlagsUpdateShrotCarry(v, left);
      if left {
        v := ToByte(2 * v) + (if fill then 1 else 0);
      } else {
        v := v / 2 + (if fill then 0x80 else 0);
      }
      if addr != M.INVALID_ADDRESS {
        core.MemWrite(addr, v);
        FlagsUpdateBasicByMem(addr);
      } else {
        core.SetSreg(M.RegA, v);
        FlagsUpdateBasicByRegister(M.RegA);
      }
    }

    method AsmBreak()
      requires Valid()
      modifies this`branched
      ensures branched == M.MemRead16(core.Bus(), core.mem[..], M.BREAK_VECTOR)
    {
      var addr := core.MemRead16(M.BREAK_VECTOR);
      var _ := BranchStatus(addr);
    }

    // ---------- instructions ----------

    method ExecLoad(op: Mnemonic, m: AddrMode)
      requires Valid() && Kind(op) == Loading
      modifies core.regs
      ensures core.Value() == M.Load(core.Bus(), old(State()), m, M.RegOf(op))
    {
      hide M.MemRead, M.Addr, BusOf, Unpack, M.LoadReg;
      var addr := Addr(m);
      AsmMem2Reg(M.RegOf(op), addr);
    }

    method ExecStore(op: Mnemonic, m: AddrMode)
      requires Valid() && Kind(op) == Storing
      modifies core.mem
      ensures core.Value() == M.Store(core.Bus(), old(State()), m, M.RegOf(op))
    {
      hide M.MemWrite, M.Addr, BusOf, Unpack, M.StoreReg;
      var addr := Addr(m);
      AsmReg2Mem(addr, M.RegOf(op));
    }

    method ExecModify(op: Mnemonic, m: AddrMode)
      requires Valid() && Kind(op) == Modifying
      modifies core.regs, core.mem
      ensures core.Value() == M.Modify(core.Bus(), old(State()), op, m)
    {
      hide M.MemRead, M.MemWrite, M.MemInc, M.Addr, BusOf, Unpack, M.IncMem, M.ShiftMem, M.ShiftAcc;
      var addr := Addr(m);
      core.CarryIsFlag();
      match op {
        case INC => AsmIncMem(addr, 1);
        case DEC => AsmIncMem(addr, -1);
        case ASL => AsmShrot(addr, true, false);
        case LSR => AsmShrot(addr, false, false);
        case ROL => AsmShrot(addr, true, core.GetFlag(FLAG_C));
        case ROR => AsmShrot(addr, false, core.GetFlag(FLAG_C));
      }
    }

    method ExecTransfer(op: Mnemonic)
      requires core.Sized()
      requires Kind(op) == Transferring
      modifies core.regs
      ensures core.Value() == M.Transfer(old(core.Value()), op)
    {
      hide Unpack, Pack;
      match op {
        case TAX => AsmReg2Reg(M.RegX, M.RegA);
        case TAY => AsmReg2Reg(M.RegY, M.RegA);
        case TXA => AsmReg2Reg(M.RegA, M.RegX);
        case TYA => AsmReg2Reg(M.RegA, M.RegY);
        case TSX => AsmReg2Reg(M.RegX, M.RegSP);
        case TXS => AsmReg2Reg(M.RegSP, M.RegX);
        case INX => AsmIncReg(M.RegX, 1);
        case INY => AsmIncReg(M.RegY, 1);
        case DEX => AsmIncReg(M.RegX, -1);
        case DEY => AsmIncReg(M.RegY, -1);
      }
    }

    method ExecStack(op: Mnemonic)
      requires core.Sized() && Kind(op) == Stacking
      modifies core.regs, core.mem
      ensures core.Value() == M.StackOp(old(core.Value()), core.pc, op)
    {
      hide Unpack, Pack;
      match op {
        case PHA => AsmReg2Stack(M.RegA);
        case PHP => AsmReg2Stack(M.RegP);
        case PLA => AsmStack2Reg(M.RegA);
        case PLP => AsmStack2Reg(M.RegP);
      }
    }

    method ExecAlu(op: Mnemonic, m: AddrMode)
      requires Valid() && (Kind(op) == Combining || Kind(op) == Comparing)
      modifies core.regs
      ensures core.Value() == M.Alu(old(core.Value()), op, M.Operand(core.Bus(), old(State()), m))
    {
      hide M.Operand, BusOf;
      var v := AddrModeGetValue(m);
      if Kind(op) == Combining {
        ExecCombine(op, v);
      } else {
        ExecCompare(op, v);
      }
    }

    method ExecCombine(op: Mnemonic, v: byte)
      requires core.Sized() && Kind(op) == Combining
      modifies core.regs
      ensures core.Value() == M.Alu(old(core.Value()), op, v)
    {
      hide M.And, M.ExclusiveOr, M.InclusiveOr, M.BitTest, M.Add, M.Subtract, Unpack;
      match op {
        case AND => AsmLogicAnd(M.RegA, v);
        case EOR => AsmLogicEor(v);
        case ORA => AsmLogicOra(v);
        case BIT => AsmLogicAnd(M.RegInvalid, v);
        case ADC => AsmArithAdd(v);
        case SBC => AsmArithSub(M.RegA, M.RegA, v);
      }
    }

    method ExecCompare(op: Mnemonic, v: byte)
      requires core.Sized() && Kind(op) == Comparing
      modifies core.regs
      ensures core.Value() == M.Alu(old(core.Value()), op, v)
    {
      hide M.Compare, Unpack;
      match op {
        case CMP => AsmArithSub(M.RegInvalid, M.RegA, v);
        case CPX => AsmArithSub(M.RegInvalid, M.RegX, v);
        case CPY => AsmArithSub(M.RegInvalid, M.RegY, v);
      }
    }

    method ExecFlag(op: Mnemonic)
      requires core.Sized() && Kind(op) == Flagging
      modifies core.regs
      ensures core.Value() == old(core.Value()).(p := M.FlagOp(old(core.Value()).p, op))
    {
      hide Unpack;
      match op {
        case CLC => core.SetFlag(FLAG_C, false);
        case CLD => core.SetFlag(FLAG_D, false);
        case CLI => core.SetFlag(FLAG_I, false);
        case CLV => core.SetFlag(FLAG_V, false);
        case SEC => core.SetFlag(FLAG_C, true);
        case SED => core.SetFlag(FLAG_D, true);
        case SEI => core.SetFlag(FLAG_I, true);
      }
    }

    method BranchCondition(op: Mnemonic) returns (condition: bool)
      requires core.Sized() && Kind(op) == Jumping && op != BRK
      ensures condition == M.Taken(core.Value().p, op)
    {
      hide Unpack;
      core.FlagsAreBits();
      hide TestBit;
      condition := true;
      match op {
        case JMP =>
        case BCC => condition := !core.GetFlag(FLAG_C);
        case BCS => condition := core.GetFlag(FLAG_C);
        case BEQ => condition := core.GetFlag(FLAG_Z);
        case BMI => condition := core.GetFlag(FLAG_N);
        case BNE => condition := !core.GetFlag(FLAG_Z);
        case BPL => condition := !core.GetFlag(FLAG_N);
        case BVC => condition := !core.GetFlag(FLAG_V);
        case BVS => condition := core.GetFlag(FLAG_V);
      }
    }

    method ExecBranch(op: Mnemonic, m: AddrMode)
      requires Valid() && Kind(op) == Jumping && op != BRK
      modifies this`branched
      ensures branched == if M.Taken(core.Value().p, op) then M.Addr(core.Bus(), old(State()), m)
                          else old(branched)
    {
      hide M.Addr, M.Taken, Kind, BusOf, Unpack;
      var addr := Addr(m);
      var condition := BranchCondition(op);
      AsmMem2Pc(addr, condition);
    }

    /** The return address goes on the stack before the operand is read. */
    method ExecJsr(m: AddrMode)
      requires Valid()
      modifies this`branched, core.regs, core.mem
      ensures core.Value() == M.Push16(old(core.Value()), ToWord(core.pc + 2))
      ensures branched == M.Addr(core.Bus(), M.State(core.pc, old(branched), core.Value()), m)
    {
      hide M.Addr, M.Push16, Unpack, BusOf;
      AsmPc2Stack();
      var addr := Addr(m);
      AsmMem2Pc(addr, true);
    }

    /** RTS goes through the stack and BRK through its vector; neither has an operand. */
    method ExecJump(op: Mnemonic, m: AddrMode)
      requires Valid() && Kind(op) == Jumping
      modifies this`branched
      ensures branched == if M.Taken(core.Value().p, op) then M.Target(core.Bus(), old(State()), op, m)
                          else old(branched)
    {
      hide M.Addr, M.MemRead16, M.Top16, Unpack, BusOf;
      if op == BRK {
        AsmBreak();
      } else {
        ExecBranch(op, m);
      }
    }

    method ExecCall(op: Mnemonic, m: AddrMode)
      requires Valid() && Kind(op) == Calling
      modifies this`branched, core.regs, core.mem
      ensures core.Value() == M.StackOp(old(core.Value()), core.pc, op)
      ensures branched == M.Target(core.Bus(), old(State()), op, m)
    {
      hide M.StackOp, M.Target, M.Addr, M.Push16, M.Popped, M.Top16, Kind, Unpack, BusOf;
      CallingMeans(core.Bus(), State(), op, m);
      if op == JSR {
        ExecJsr(m);
      } else {
        AsmStack2Pc();
      }
    }

    method ExecMemory(op: Mnemonic, m: AddrMode)
      requires Valid()
      requires Kind(op).Loading? || Kind(op).Storing? || Kind(op).Modifying? || Kind(op).Combining?
            || Kind(op).Comparing?
      modifies core.regs, core.mem
      ensures core.Value() == M.Effect(core.Bus(), old(State()), op, m)
    {
      hide M.Operand, M.Load, M.Store, M.Modify, M.Alu, Kind, Unpack, BusOf;
      var kind := Kind(op);
      if kind == Loading {
        ExecLoad(op, m);
      } else if kind == Storing {
        ExecStore(op, m);
      } else if kind == Modifying {
        ExecModify(op, m);
      } else {
        ExecAlu(op, m);
      }
    }

    method ExecRegister(op: Mnemonic)
      requires core.Sized() && (Kind(op).Transferring? || Kind(op).Stacking? || Kind(op).Flagging?)
      modifies core.regs, core.mem
      ensures forall bus, m :: core.Value() == M.Effect(bus, old(State()), op, m)
    {
      hide M.Transfer, M.StackOp, M.FlagOp, Kind, Unpack;
      match Kind(op) {
        case Transferring => ExecTransfer(op);
        case Stacking => ExecStack(op);
        case Flagging => ExecFlag(op);
      }
    }

    method ExecData(op: Mnemonic, m: AddrMode)
      requires Valid() && Kind(op) != Jumping && Kind(op) != Calling
      modifies core.regs, core.mem
      ensures core.Value() == M.Effect(core.Bus(), old(State()), op, m)
    {
      hide M.Operand, M.Load, M.Store, M.Modify, M.Alu, M.Transfer, M.StackOp, M.FlagOp, Kind, Unpack, BusOf;
      var kind := Kind(op);
      if kind == Transferring || kind == Stacking || kind == Flagging {
        ExecRegister(op);
      } else if kind != Idling {
        ExecMemory(op, m);
      }
    }

    method ExecControl(op: Mnemonic, m: AddrMode)
      requires Valid() && (Kind(op) == Jumping || Kind(op) == Calling)
      modifies this`branched, core.regs, core.mem
      ensures State() == M.Exec(core.Bus(), old(State()), op, m)
    {
      hide M.StackOp, M.Target, M.Taken, Kind, Unpack, BusOf;
      TakenOnlyByJumps(core.Value().p, op);
      if Kind(op) == Jumping {
        ExecJump(op, m);
      } else {
        ExecCall(op, m);
      }
    }

    method ExecOpcode(op: Mnemonic, m: AddrMode)
      requires Valid()
      modifies this`branched, core.regs, core.mem
      ensures State() == M.Exec(core.Bus(), old(State()), op, m)
    {
      hide M.Effect, M.Target, M.Taken, Kind, Unpack, BusOf;
      TakenOnlyByJumps(core.Value().p, op);
      if Kind(op) == Jumping || Kind(op) == Calling {
        ExecControl(op, m);
      } else {
        ExecData(op, m);
      }
    }

    // ---------- fetch and execute ----------

    method OpcodeLen() returns (len: int)
      requires Valid()
      ensures len == M.LengthAt(core.Bus(), core.mem[..], core.pc)
    {
      var b := core.MemRead(core.pc);
      len := Length(Decode(b).mode);
    }

    method OpcodeFetchStart(addr: word)
      modifies this`branched
      ensures branched == addr
    {
      var _ := BranchStatus(addr);
    }

    /** The result is false when the assertion on the next address fails. */
    method OpcodeFetch() returns (ok: bool)
      requires Valid()
      modifies this`branched, core`pc
      ensures M.Fetch(core.Bus(), old(State())) == if ok then M.Running(State()) else M.Aborted
    {
      hide M.LengthAt;
      var branch := BranchStatus(M.INVALID_ADDRESS);
      var next := branch;
      if branch == M.INVALID_ADDRESS {
        var len := OpcodeLen();
        next := ToWord(core.pc + len);
      }
      if next >= M.RESERVED_START {
        return false;
      }
      core.pc := next;
      return true;
    }

    method OpcodeExec()
      requires Valid()
      modifies this`branched, core.regs, core.mem
      ensures State() == M.ExecCurrent(core.Bus(), old(State()))
    {
      hide M.Exec, M.MemRead, Decode;
      var b := core.MemRead(core.pc);
      ExecOpcode(Decode(b).name, Decode(b).mode);
    }

    /** The run loop, left after n steps, or false as soon as a fetch fails its assertion. */
    method CpuThread(n: nat) returns (ok: bool)
      requires Valid()
      modifies this`branched, core`pc, core.regs, core.mem
      ensures M.Run(core.Bus(), old(State()), n) == if ok then M.Running(State()) else M.Aborted
    {
      hide M.Fetch, M.ExecCurrent;
      var i := 0;
      while i < n
        invariant 0 <= i <= n
        invariant M.Run(core.Bus(), old(State()), n) == M.Run(core.Bus(), State(), n - i)
      {
        ok := OpcodeFetch();
        if !ok {
          return;
        }
        OpcodeExec();
        i := i + 1;
      }
      ok := true;
    }

    /** The operand bytes and their number; a byte the instruction does not have is 0. */
    method OpcodeGetParams() returns (byte1: byte, byte2: byte, count: int)
      requires Valid()
      ensures count == M.LengthAt(core.Bus(), core.mem[..], core.pc) - 1
      ensures byte1 == if count > 0 then M.MemRead(core.Bus(), core.mem[..], ToWord(core.pc + 1)) else 0
      ensures byte2 == if count > 1 then M.MemRead(core.Bus(), core.mem[..], ToWord(core.pc + 2)) else 0
    {
      hide M.MemRead, M.LengthAt;
      var len := OpcodeLen();
      byte1, byte2, count := 0, 0, len - 1;
      if len > 1 {
        byte1 := core.MemRead(ToWord(core.pc + 1));
      }
      if len > 2 {
        byte2 := core.MemRead(ToWord(core.pc + 2));
      }
    }

    /** Looks at the machine after a step, without changing it, and prints the line about it. */
    method CollectStepInfo(line: array<char>) returns (info: Disassembler.StepInfo)
      requires Valid() && line.Length == 128
      modifies line
      ensures info == Disassembler.CollectStepInfo(core.Bus(), State())
      ensures line[..49] == Disassembler.Line(info) && line[49] == Disassembler.NUL
    {
      hide M.MemRead, Decode, Disassembler.Line;
      var b := core.MemRead(core.pc);
      var byte1, byte2, count := OpcodeGetParams();
      PackUnpack(core.regs[4]);
      assert core.regs[..] == [core.regs[0], core.regs[1], core.regs[2], core.regs[3], core.regs[4]];
      info := Disassembler.StepInfo(core.pc, Decode(b).name, Decode(b).mode, byte1, byte2, core.regs[..]);
      Disassembler.DisassembleOpcode(info, count, line);
    }

    // ---------- the machine around the processor ----------

    method LoadStream(stream: seq<byte>, offset: word) returns (len: nat)
      requires Valid() && |stream| < 0x1_0000
      modifies core.mem
      ensures System() == Sfot.Prepare(old(System()), Sfot.LoadImage(offset, stream)) && len == |stream|
    {
      hide M.MemWrite;
      var i: int := offset;
      assert stream[..0] == [];
      while i < offset + |stream|
        invariant offset <= i <= offset + |stream|
        invariant core.mem[..] == Sfot.Loaded(core.Bus(), old(core.mem[..]), offset, stream[..i - offset])
      {
        assert stream[..i + 1 - offset][..i - offset] == stream[..i - offset];
        core.MemWrite(ToWord(i), stream[i - offset]);
        i := i + 1;
      }
      assert stream[..i - offset] == stream;
      len := |stream|;
    }

    /** Copies size bytes out, letting the address wrap around. */
    method DoDma(addr: word, dest: array<byte>, size: word)
      requires Valid() && size <= dest.Length && dest != core.mem && dest != core.regs
      modifies dest
      ensures dest[..size] == Sfot.Dma(core.Bus(), core.mem[..], addr, size)
      ensures dest[size..] == old(dest[size..])
    {
      hide M.MemRead;
      var i := 0;
      while i < size
        invariant 0 <= i <= size
        invariant dest[..i] == Sfot.Dma(core.Bus(), core.mem[..], addr, i)
        invariant dest[size..] == old(dest[size..])
      {
        var v := core.MemRead(ToWord(addr + i));
        dest[i] := v;
        assert dest[..i + 1] == dest[..i] + [v];
        i := i + 1;
      }
    }

    method SetReset(v: word)
      requires Valid()
      modifies core.mem
      ensures System() == Sfot.Prepare(old(System()), Sfot.SetVector(v))
    {
      core.MemWrite16(M.RESET_VECTOR, v);
    }

    /** The result is the callback that was installed before. */
    method InstallStepCallback(callback: Option<nat>) returns (oldCallback: Option<nat>)
      modifies this`stepCallback
      ensures stepCallback == callback && oldCallback == old(stepCallback)
    {
      oldCallback := stepCallback;
      stepCallback := callback;
    }

    method ExcepthookInsert(hook: Option<nat>)
      modifies this`breakHook
      ensures breakHook == hook
    {
      breakHook := hook;
    }

    method ExcepthookClear()
      modifies this`breakHook
      ensures breakHook == None
    {
      breakHook := None;
    }

    /** Starts at the reset vector and runs n steps; a machine that is on ignores it. */
    method PowerOn(n: nat) returns (ok: bool)
      requires Valid()
      modifies this`branched, this`poweredOn, core`pc, core.regs, core.mem
      ensures poweredOn
      ensures old(poweredOn) ==> ok && State() == old(State())
      ensures !old(poweredOn) ==>
                Sfot.RunFromPowerOn(old(System()), n) == if ok then M.Running(State()) else M.Aborted
    {
      if poweredOn {
        return true;
      }
      var start := core.MemRead16(M.RESET_VECTOR);
      OpcodeFetchStart(start);
      ok := CpuThread(n);
      poweredOn := true;
    }

    // What users have installed: exception hook, memory hooks, step callback.
    method ClearInstalled()
      requires Valid()
      modifies this`breakHook, this`stepCallback, core.hooks.onRead, core.hooks.onWrite, core.hooks.onTransl
      ensures Valid() && core.hooks.Contents() == Hooks([], [], []) && breakHook == None && stepCallback == None
    {
      ExcepthookClear();
      core.hooks.Clear();
      stepCallback := None;
    }

    /**
     * Clears registers, memory, memory hooks, exception hook and step callback; the program counter and
     * the pending branch stay. A machine that is off ignores it.
     */
    method PowerOff()
      requires Valid()
      modifies this`poweredOn, this`breakHook, this`stepCallback, core.regs, core.mem
      modifies core.hooks.onRead, core.hooks.onWrite, core.hooks.onTransl
      ensures Valid() && !poweredOn
      ensures !old(poweredOn) ==>
                System() == old(System()) && breakHook == old(breakHook) && stepCallback == old(stepCallback)
      ensures old(poweredOn) ==>
                System() == Sfot.Off(old(System())) && breakHook == None && stepCallback == None
    {
      if !poweredOn {
        return;
      }
      hide Unpack, M.Cleared;
      core.ClearAll();
      ClearInstalled();
      poweredOn := false;
    }
  }

  lemma CallingMeans(bus: M.Bus, s: M.State, op: Mnemonic, m: AddrMode)
    requires Kind(op) == Calling
    ensures op == JSR || op == RTS
    ensures M.StackOp(s.core, s.pc, op) ==
            if op == JSR then M.Push16(s.core, ToWord(s.pc + 2)) else M.Popped(M.Popped(s.core))
    ensures M.Target(bus, s, op, m) ==
            if op == JSR then M.Addr(bus, s.(core := M.Push16(s.core, ToWord(s.pc + 2))), m)
            else ToWord(M.Top16(s.core) + 1)
  {
  }

  lemma TakenOnlyByJumps(p: Flags, op: Mnemonic)
    ensures M.Taken(p, op) ==> Kind(op) == Jumping || Kind(op) == Calling
    ensures Kind(op) == Calling ==> M.Taken(p, op)
  {
  }

  lemma HighestAndLowestBit(v: byte)
    ensures TestBit(v, 0x80) == (v >= 0x80)
    ensures TestBit(v, 0x01) == (v % 2 == 1)
  {
  }

  lemma NothingAnd(v: byte)
    ensures BitAnd(0, v) == 0
    ensures !TestBit(0, 0x40)
  {
  }
}
