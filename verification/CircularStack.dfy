/** The 256-byte circular stack against a stack without bounds. */
module CircularStack {
  import opened Bytes
  import opened Machine

  datatype StackOp = PushByte(value: byte) | PopByte

  /** The processor's stack under a sequence of pushes and pulls, with the bytes pulled. */
  function PlayStack(c: Core, ops: seq<StackOp>): (Core, seq<byte>)
    decreases |ops|
  {
    if ops == [] then (c, [])
    else match ops[0]
      case PushByte(v) => PlayStack(Push(c, v), ops[1..])
      case PopByte =>
        var (c', outs) := PlayStack(Popped(c), ops[1..]);
        (c', [Top(c)] + outs)
  }

  /** The same on a sequence of bytes, newest last. */
  function PlayList(list: seq<byte>, ops: seq<StackOp>): (seq<byte>, seq<byte>)
    requires WithinTurn(list, ops)
    decreases |ops|
  {
    if ops == [] then (list, [])
    else match ops[0]
      case PushByte(v) => PlayList(list + [v], ops[1..])
      case PopByte =>
        var (list', outs) := PlayList(list[..|list| - 1], ops[1..]);
        (list', [list[|list| - 1]] + outs)
  }

  /** Never more than 256 bytes outstanding, and none pulled that was not pushed. */
  predicate WithinTurn(list: seq<byte>, ops: seq<StackOp>)
    decreases |ops|
  {
    && |list| <= 0x100
    && (ops != [] ==>
          match ops[0]
          case PushByte(v) => WithinTurn(list + [v], ops[1..])
          case PopByte => list != [] && WithinTurn(list[..|list| - 1], ops[1..]))
  }

  // The cell of the i-th byte pushed when the stack pointer was sp.
  function CellOf(sp: byte, i: int): word { StackCell(ToByte(sp - i)) }

  /** The processor holds the list, its oldest byte at the cell of the stack pointer it began with. */
  ghost predicate Holds(c: Core, list: seq<byte>, sp: byte) {
    && |list| <= 0x100
    && c.sp == ToByte(sp - |list|)
    && forall i :: 0 <= i < |list| ==> c.mem[CellOf(sp, i)] == list[i]
  }

  lemma CellsApart(sp: byte, i: int, j: int)
    requires 0 <= i < j < 0x100
    ensures CellOf(sp, i) != CellOf(sp, j)
  {
  }

  lemma SpMoves(sp: byte, n: int)
    ensures ToByte(ToByte(sp - n) - 1) == ToByte(sp - (n + 1))
    ensures ToByte(ToByte(sp - n) + 1) == ToByte(sp - (n - 1))
  {
  }

  lemma PushHolds(c: Core, list: seq<byte>, sp: byte, v: byte)
    requires Holds(c, list, sp) && |list| < 0x100
    ensures Holds(Push(c, v), list + [v], sp)
  {
    hide ToByte;
    SpMoves(sp, |list|);
    forall i | 0 <= i < |list|
      ensures CellOf(sp, i) != CellOf(sp, |list|)
    {
      CellsApart(sp, i, |list|);
    }
  }

  lemma PopHolds(c: Core, list: seq<byte>, sp: byte)
    requires Holds(c, list, sp) && list != []
    ensures Holds(Popped(c), list[..|list| - 1], sp) && Top(c) == list[|list| - 1]
  {
    hide ToByte;
    SpMoves(sp, |list|);
  }

  /**
   * Over every sequence of pushes and pulls within one turn of the stack, from any stack pointer, the
   * pulled bytes and what is left are those of the unbounded stack, and only page 1 changes.
   */
  lemma {:induction false} StackRefinesList(c: Core, list: seq<byte>, sp: byte, ops: seq<StackOp>)
    requires Holds(c, list, sp) && WithinTurn(list, ops)
    ensures var (c', outs) := PlayStack(c, ops);
            var (list', outs') := PlayList(list, ops);
            && outs == outs' && Holds(c', list', sp)
            && c' == c.(sp := c'.sp, mem := c'.mem)
            && forall a: word :: a < 0x100 || a >= 0x200 ==> c'.mem[a] == c.mem[a]
    decreases |ops|
  {
    if ops != [] {
      match ops[0] {
        case PushByte(v) =>
          assert |list + [v]| <= 0x100;
          PushHolds(c, list, sp, v);
          StackRefinesList(Push(c, v), list + [v], sp, ops[1..]);
        case PopByte =>
          PopHolds(c, list, sp);
          StackRefinesList(Popped(c), list[..|list| - 1], sp, ops[1..]);
      }
    }
  }

  /** One byte more than a turn and the oldest byte is gone. */
  lemma PushBeyondTurnOverwrites(c: Core, list: seq<byte>, sp: byte, v: byte)
    requires Holds(c, list, sp) && |list| == 0x100
    ensures Push(c, v).mem[StackCell(sp)] == v
  {
  }
}
