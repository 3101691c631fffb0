/** Which cells an instruction writes to: its store target and the stack cells it pushes to. */
module Footprints {
  import opened Bytes
  import opened Opcodes
  import opened Machine
  import opened RunInvariants

  /** The cell an instruction stores to through the memory path, after translation. */
  function StoreCell(bus: Bus, s: State, op: Mnemonic, m: AddrMode): Option<word> {
    if Kind(op) == Storing || op == INC || op == DEC then Some(bus.transl(Addr(bus, s, m)))
    else if Kind(op) == Modifying && Addr(bus, s, m) != INVALID_ADDRESS then Some(bus.transl(Addr(bus, s, m)))
    else None
  }

  /** The stack cells an instruction pushes to. */
  predicate Pushes(sp: byte, op: Mnemonic, cell: word) {
    || ((op == PHA || op == PHP || op == JSR) && cell == StackCell(sp))
    || (op == JSR && cell == StackCell(ToByte(sp - 1)))
  }

  predicate Writes(bus: Bus, s: State, op: Mnemonic, m: AddrMode, cell: word) {
    StoreCell(bus, s, op, m) == Some(cell) || Pushes(s.core.sp, op, cell)
  }

  /** Every other cell keeps its byte. */
  lemma EffectTouches(bus: Bus, s: State, op: Mnemonic, m: AddrMode, cell: word)
    requires !Writes(bus, s, op, m, cell)
    ensures Effect(bus, s, op, m).mem[cell] == s.core.mem[cell]
  {
    match Kind(op) {
      case Stacking => StackOpTouches(s.core, s.pc, op, cell);
      case Calling => StackOpTouches(s.core, s.pc, op, cell);
      case Modifying => ModifyTouches(bus, s, op, m, cell);
      case _ => RestTouches(bus, s, op, m, cell);
    }
  }

  lemma StackOpTouches(c: Core, pc: word, op: Mnemonic, cell: word)
    requires !Pushes(c.sp, op, cell)
    ensures StackOp(c, pc, op).mem[cell] == c.mem[cell]
  {
  }

  lemma ModifyTouches(bus: Bus, s: State, op: Mnemonic, m: AddrMode, cell: word)
    requires Kind(op) == Modifying && StoreCell(bus, s, op, m) != Some(cell)
    ensures Modify(bus, s, op, m).mem[cell] == s.core.mem[cell]
  {
    hide Addr, Shifted, ShiftedOut;
  }

  lemma StoreTouches(bus: Bus, s: State, m: AddrMode, r: Reg, cell: word)
    requires bus.transl(Addr(bus, s, m)) != cell
    ensures Store(bus, s, m, r).mem[cell] == s.core.mem[cell]
  {
    hide Addr, GetReg;
  }

  lemma RestTouches(bus: Bus, s: State, op: Mnemonic, m: AddrMode, cell: word)
    requires !Kind(op).Stacking? && !Kind(op).Calling? && !Kind(op).Modifying?
    requires StoreCell(bus, s, op, m) != Some(cell)
    ensures Effect(bus, s, op, m).mem[cell] == s.core.mem[cell]
  {
    hide Addr, Operand, Load, Store, Transfer, Alu, FlagOp, RegOf;
    LoadedReg(op);
    match Kind(op) {
      case Storing => StoreTouches(bus, s, m, RegOf(op), cell);
      case Loading => LoadKeeps(bus, s, m, RegOf(op));
      case Transferring => TransferKeeps(s.core, op);
      case Combining => AluKeeps(s.core, op, Operand(bus, s, m));
      case Comparing => AluKeeps(s.core, op, Operand(bus, s, m));
      case _ =>
    }
  }
}
