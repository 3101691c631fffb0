/**
 * The PPU data port. What the code keeps in a 16-bit variable that is reduced only now and then is,
 * through the port, a 14-bit counter; and what is written through the port reads back.
 */
module Ppu {
  import opened Bytes
  import opened PpuRegisters

  const PPU_SIZE := 0x4000

  // ---------- the port as a 14-bit counter ----------

  type Address = a: int | 0 <= a < 0x4000

  type Video = m: seq<byte> | |m| == 0x4000 witness seq(0x4000, i => 0)

  // dummy: the next read is a dummy; low: the next address write is the low half.
  datatype Port = Port(addr: Address, mem: Video, dummy: bool, low: bool, cr1: bv8)

  datatype PortOp = AddrWrite(value: byte) | DataRead | DataWrite(value: byte) | ControlWrite(value: byte)

  function Increment(cr1: bv8): int {
    if GetField(cr1, VERTICAL_WRITE) != 0 then 32 else 1
  }

  /** Bit 2 of the first control register chooses between steps of 32 and of 1. */
  lemma IncrementBit(cr1: bv8)
    ensures Increment(cr1) == if cr1 & 0x04 != 0 then 32 else 1
  {
    assert cr1 & 0x04 != 0 <==> (cr1 & 0x04) >> 2 != 0;
  }

  function Wrap(n: int): Address { n % 0x4000 }

  function Advance(p: Port): Port { p.(addr := Wrap(p.addr + Increment(p.cr1))) }

  /** The next state of the port, and the byte the access returns. */
  function Access(p: Port, op: PortOp): (Port, byte) {
    match op
    case AddrWrite(v) =>
      if p.low then (p.(addr := p.addr / 0x100 * 0x100 + v, low := false, dummy := true), v)
      else (p.(addr := v % 0x40 * 0x100 + p.addr % 0x100, low := true, dummy := true), v)
    case DataRead =>
      if p.dummy then (p.(dummy := false), 0) else (Advance(p), p.mem[p.addr])
    case DataWrite(v) => (Advance(p.(mem := p.mem[p.addr := v])), 0)
    case ControlWrite(v) => (p.(cr1 := v as bv8), v)
  }

  function Play(p: Port, ops: seq<PortOp>): (Port, seq<byte>)
    decreases |ops|
  {
    if ops == [] then (p, [])
    else
      var (p1, out) := Access(p, ops[0]);
      var (p2, outs) := Play(p1, ops[1..]);
      (p2, [out] + outs)
  }

  lemma {:induction false} PlayConcat(p: Port, first: seq<PortOp>, second: seq<PortOp>)
    ensures var (p1, out1) := Play(p, first);
            var (p2, out2) := Play(p1, second);
            Play(p, first + second) == (p2, out1 + out2)
    decreases |first|
  {
    if first == [] {
      assert first + second == second;
      assert [] + Play(p, second).1 == Play(p, second).1;
    } else {
      hide Access;
      assert (first + second)[1..] == first[1..] + second;
      var (p1, out) := Access(p, first[0]);
      PlayConcat(p1, first[1..], second);
      var (p2, outs) := Play(p1, first[1..]);
      assert [out] + outs + Play(p2, second).1 == [out] + (outs + Play(p2, second).1);
    }
  }

  lemma PlayOne(p: Port, op: PortOp)
    ensures Play(p, [op]) == (Access(p, op).0, [Access(p, op).1])
  {
    hide Access;
    assert [op][1..] == [] && [Access(p, op).1] + [] == [Access(p, op).1];
  }

  // ---------- the port as the code has it ----------

  class PpuPort {
    var memaddr: word
    var memaddrJustSetted: bool
    var setLower: bool
    const memory: array<byte>
    const registers: PpuRegs

    // The variable goes over 0x3FFF, but never above 0x40FF.
    ghost predicate Valid()
      reads this
    {
      memory.Length == PPU_SIZE && registers.Valid() && memaddr <= 0x40FF
    }

    ghost function View(): Port
      requires Valid()
      reads this, memory, registers.regs
    {
      Port(Wrap(memaddr), memory[..], memaddrJustSetted, setLower, registers.Get(CR1))
    }

    constructor ()
      ensures Valid() && fresh(memory) && fresh(registers.regs)
      ensures View() == Port(0, seq(0x4000, i => 0), false, false, 0)
    {
      memaddr := 0;
      memaddrJustSetted := false;
      setLower := false;
      memory := new byte[PPU_SIZE](i => 0);
      registers := new PpuRegs();
      new;
      assert memory[..] == seq(0x4000, i => 0);
    }

    method MemRead() returns (v: byte)
      requires Valid()
      modifies this`memaddr
      ensures Valid() && v == old(View()).mem[old(View()).addr] && View() == Advance(old(View()))
    {
      var increment := if registers.GetF(CR1, VERTICAL_WRITE) != 0 then 32 else 1;
      v := memory[memaddr % PPU_SIZE];
      memaddr := memaddr + increment;
      if memaddr > PPU_SIZE {
        memaddr := memaddr % PPU_SIZE;
      }
    }

    method MemWrite(v: byte)
      requires Valid()
      modifies this`memaddr, memory
      ensures Valid()
      ensures View() == Advance(old(View()).(mem := old(View()).mem[old(View()).addr := v]))
    {
      var increment := if registers.GetF(CR1, VERTICAL_WRITE) != 0 then 32 else 1;
      memory[memaddr % 0x4000] := v;
      memaddr := memaddr + increment;
      if memaddr > PPU_SIZE {
        memaddr := memaddr % PPU_SIZE;
      }
    }

    lemma HalvesWrap(a: word, v: byte)
      requires a <= 0x40FF
      ensures Wrap(a / 0x100 * 0x100 + v) == Wrap(a) / 0x100 * 0x100 + v
      ensures a / 0x100 * 0x100 + v <= 0x40FF
      ensures Wrap(a % 0x100 + v % 0x40 * 0x100) == v % 0x40 * 0x100 + Wrap(a) % 0x100
    {
      assert a < 0x4000 ==> Wrap(a) == a;
      assert a >= 0x4000 ==> Wrap(a) == a - 0x4000;
    }

    /** The halves are masked and joined on the 16-bit variable; six bits of the high half count. */
    method MemaddrWrite(v: byte) returns (r: byte)
      requires Valid()
      modifies this
      ensures Valid() && (View(), r) == Access(old(View()), AddrWrite(v))
    {
      HalvesWrap(memaddr, v);
      hide Wrap;
      memaddrJustSetted := true;
      if setLower {
        memaddr := memaddr / 0x100 * 0x100 + v;
        setLower := false;
      } else {
        memaddr := memaddr % 0x100 + v % 0x40 * 0x100;
        setLower := true;
      }
      r := v;
    }

    method MemdataRead() returns (r: byte)
      requires Valid()
      modifies this
      ensures Valid() && (View(), r) == Access(old(View()), DataRead)
    {
      if memaddrJustSetted {
        memaddrJustSetted := false;
        return 0;
      }
      r := MemRead();
    }

    method MemdataWrite(v: byte) returns (r: byte)
      requires Valid()
      modifies this, memory
      ensures Valid() && (View(), r) == Access(old(View()), DataWrite(v))
    {
      MemWrite(v);
      r := 0;
    }

    method Cr1Write(v: byte) returns (r: byte)
      requires Valid()
      modifies registers.regs
      ensures Valid() && (View(), r) == Access(old(View()), ControlWrite(v))
    {
      registers.Set(CR1, v as bv8);
      r := v;
    }

    /** Whatever the order of the accesses, the port behaves as the 14-bit counter. */
    method Serve(ops: seq<PortOp>) returns (outs: seq<byte>)
      requires Valid()
      modifies this, memory, registers.regs
      ensures Valid() && (View(), outs) == Play(old(View()), ops)
    {
      hide Access;
      outs := [];
      var i := 0;
      assert ops[..0] == [];
      while i < |ops|
        invariant 0 <= i <= |ops| && Valid()
        invariant (View(), outs) == Play(old(View()), ops[..i])
      {
        ghost var before := View();
        var out;
        match ops[i] {
          case AddrWrite(v) => out := MemaddrWrite(v);
          case DataRead => out := MemdataRead();
          case DataWrite(v) => out := MemdataWrite(v);
          case ControlWrite(v) => out := Cr1Write(v);
        }
        PlayConcat(old(View()), ops[..i], [ops[i]]);
        PlayOne(before, ops[i]);
        assert ops[..i] + [ops[i]] == ops[..i + 1];
        outs := outs + [out];
        i := i + 1;
      }
      assert ops[..i] == ops;
    }
  }

  // ---------- writing and reading back ----------

  function SetAddress(addr: Address): seq<PortOp> {
    [AddrWrite(addr / 0x100), AddrWrite(addr % 0x100)]
  }

  function Writes(values: seq<byte>): seq<PortOp> {
    seq(|values|, i requires 0 <= i < |values| => DataWrite(values[i]))
  }

  function Reads(n: nat): seq<PortOp> { seq(n, i => DataRead) }

  lemma PlaySetAddress(p: Port, addr: Address)
    requires !p.low
    ensures Play(p, SetAddress(addr)).0 == p.(addr := addr, dummy := true)
    ensures |Play(p, SetAddress(addr)).1| == 2
  {
    var ops := SetAddress(addr);
    var p1 := Access(p, ops[0]).0;
    assert ops[1..][1..] == [];
    assert Play(p1, ops[1..]).0 == Access(p1, ops[1]).0;
  }

  // The cell the k-th of a series of accesses goes to.
  function Cell(p: Port, k: int): Address { Wrap(p.addr + k * Increment(p.cr1)) }

  lemma CellsDistinct(p: Port, i: nat, j: nat)
    requires i < j && j * Increment(p.cr1) < PPU_SIZE + i * Increment(p.cr1)
    ensures Cell(p, i) != Cell(p, j)
  {
    hide GetField;
  }

  lemma CellAfter(p: Port, k: nat)
    ensures Cell(Advance(p), k) == Cell(p, k + 1)
  {
    hide Increment;
    var step := Increment(p.cr1);
    assert (k + 1) * step == step + k * step;
    WrapTwice(p.addr + step, k * step);
  }

  lemma WrapTwice(a: int, b: int)
    ensures Wrap(Wrap(a) + b) == Wrap(a + b)
  {
  }

  lemma CellZero(p: Port)
    ensures Cell(p, 0) == p.addr
  {
  }

  /** Series of writes: the k-th value lands in the k-th cell, as long as the cells do not repeat. */
  lemma {:induction false} PlayWrites(p: Port, values: seq<byte>)
    requires |values| * Increment(p.cr1) <= PPU_SIZE
    ensures var p' := Play(p, Writes(values)).0;
            && p' == p.(addr := Cell(p, |values|), mem := p'.mem)
            && (forall k :: 0 <= k < |values| ==> p'.mem[Cell(p, k)] == values[k])
            && (forall a: Address :: (forall k :: 0 <= k < |values| ==> a != Cell(p, k)) ==> p'.mem[a] == p.mem[a])
            && |Play(p, Writes(values)).1| == |values|
    decreases |values|
  {
    hide Increment, Cell, Wrap;
    CellZero(p);
    if values != [] {
      var p1 := Access(p, DataWrite(values[0])).0;
      var rest := values[1..];
      assert Writes(values)[0] == DataWrite(values[0]) && Writes(values)[1..] == Writes(rest);
      NextCells(p, p1, |values|);
      PlayWrites(p1, rest);
      var p' := Play(p, Writes(values)).0;
      assert p' == Play(p1, Writes(rest)).0;
      forall k | 0 <= k < |values|
        ensures p'.mem[Cell(p, k)] == values[k]
      {
        if k > 0 {
          assert Cell(p, k) == Cell(p1, k - 1) && rest[k - 1] == values[k];
        } else {
          assert forall j :: 0 <= j < |rest| ==> p.addr != Cell(p1, j);
        }
      }
      forall a: Address | forall k :: 0 <= k < |values| ==> a != Cell(p, k)
        ensures p'.mem[a] == p.mem[a]
      {
        assert forall j :: 0 <= j < |rest| ==> a != Cell(p1, j) by {
          forall j | 0 <= j < |rest|
            ensures a != Cell(p1, j)
          {
            assert Cell(p1, j) == Cell(p, j + 1);
          }
        }
        assert a != Cell(p, 0);
      }
    }
  }

  lemma NextCells(p: Port, p1: Port, n: nat)
    requires n > 0 && n * Increment(p.cr1) <= PPU_SIZE && p1 == Advance(p.(mem := p1.mem))
    ensures (n - 1) * Increment(p1.cr1) <= PPU_SIZE
    ensures Cell(p1, n - 1) == Cell(p, n)
    ensures forall j :: 0 <= j < n - 1 ==> Cell(p1, j) == Cell(p, j + 1) != p.addr
  {
    forall j | 0 <= j < n
      ensures Cell(p1, j) == Cell(p, j + 1)
      ensures j < n - 1 ==> Cell(p1, j) != p.addr
    {
      CellAfter(p.(mem := p1.mem), j);
      CellZero(p);
      if j < n - 1 {
        CellsDistinct(p, 0, j + 1);
      }
    }
  }

  /** Series of reads: the k-th returns the k-th cell, wrapping around, and changes no byte. */
  lemma {:induction false} PlayReads(p: Port, n: nat)
    requires !p.dummy
    ensures var (p', outs) := Play(p, Reads(n));
            && p' == p.(addr := Cell(p, n))
            && |outs| == n && forall k :: 0 <= k < n ==> outs[k] == p.mem[Cell(p, k)]
    decreases n
  {
    hide Increment, Cell, Wrap;
    CellZero(p);
    if n > 0 {
      assert Reads(n)[0] == DataRead && Reads(n)[1..] == Reads(n - 1);
      var p1 := Access(p, DataRead).0;
      PlayReads(p1, n - 1);
      forall k | 0 <= k < n
        ensures Cell(p1, k) == Cell(p, k + 1)
      {
        CellAfter(p, k);
      }
      var (p', outs) := Play(p, Reads(n));
      forall k | 0 <= k < n
        ensures outs[k] == p.mem[Cell(p, k)]
      {
        assert k > 0 ==> outs[k] == Play(p1, Reads(n - 1)).1[k - 1];
      }
    }
  }

  function WriteSession(addr: Address, values: seq<byte>): seq<PortOp> { SetAddress(addr) + Writes(values) }

  /** After the address is set again one dummy read comes first. */
  function ReadSession(addr: Address, n: nat): seq<PortOp> { SetAddress(addr) + ([DataRead] + Reads(n)) }

  lemma PlayWriteSession(p: Port, addr: Address, values: seq<byte>)
    requires !p.low && |values| * Increment(p.cr1) <= PPU_SIZE
    ensures var base := p.(addr := addr, dummy := true);
            var p' := Play(p, WriteSession(addr, values)).0;
            && p' == base.(addr := p'.addr, mem := p'.mem)
            && (forall k :: 0 <= k < |values| ==> p'.mem[Cell(base, k)] == values[k])
            && |Play(p, WriteSession(addr, values)).1| == 2 + |values|
  {
    hide Increment, Cell, Access;
    PlayConcat(p, SetAddress(addr), Writes(values));
    PlaySetAddress(p, addr);
    PlayWrites(p.(addr := addr, dummy := true), values);
  }

  lemma PlayReadSession(p: Port, addr: Address, n: nat)
    requires !p.low
    ensures var base := p.(addr := addr, dummy := true);
            var outs := Play(p, ReadSession(addr, n)).1;
            && |outs| == 3 + n
            && forall k :: 0 <= k < n ==> outs[3 + k] == p.mem[Cell(base, k)]
  {
    hide Increment, Cell;
    var p1 := p.(addr := addr, dummy := true);
    var p2 := p1.(dummy := false);
    PlayConcat(p, SetAddress(addr), [DataRead] + Reads(n));
    PlayConcat(p1, [DataRead], Reads(n));
    PlayOne(p1, DataRead);
    PlaySetAddress(p, addr);
    PlayReads(p2, n);
    forall k | 0 <= k < n
      ensures Cell(p2, k) == Cell(p1, k)
    {
      SameCells(p1, p2, k);
    }
  }

  lemma SameCells(p: Port, q: Port, k: int)
    requires p.addr == q.addr && p.cr1 == q.cr1
    ensures Cell(p, k) == Cell(q, k)
  {
  }

  /**
   * With the next address write the high half and the increment fixed: set an address, write up to a
   * whole turn of values, set the address again, read once for nothing and then read the values back.
   */
  lemma WriteReadRoundTrip(p: Port, addr: Address, values: seq<byte>)
    requires !p.low && |values| * Increment(p.cr1) <= PPU_SIZE
    ensures var outs := Play(p, WriteSession(addr, values) + ReadSession(addr, |values|)).1;
            |outs| == 5 + 2 * |values| && outs[5 + |values|..] == values
  {
    hide Increment, Cell, Access, Play, WriteSession, ReadSession;
    var n := |values|;
    PlayConcat(p, WriteSession(addr, values), ReadSession(addr, n));
    PlayWriteSession(p, addr, values);
    var p1 := Play(p, WriteSession(addr, values)).0;
    PlayReadSession(p1, addr, n);
    var outs := Play(p, WriteSession(addr, values) + ReadSession(addr, n)).1;
    forall k | 0 <= k < n
      ensures outs[5 + n + k] == values[k]
    {
      SameCells(p.(addr := addr, dummy := true), p1.(addr := addr, dummy := true), k);
    }
  }
}
