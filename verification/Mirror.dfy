/** Address mirroring as a translation hook: one small memory seen many times over. */
module Mirrors {
  import opened Bytes
  import opened HookLists
  import opened Machine
  import CpuCores

  function Mirror(addr: word, start: word, size: word): word
    requires size > 0
  {
    ToWord(addr % size + start)
  }

  const RAM_START: word := 0x0000
  const RAM_STOP: word := 0x2000
  const RAM_SIZE: word := 0x0800

  // Passes the end of the window where the size belongs.
  function MirrorInternalRam(addr: word): word
    requires addr < RAM_STOP
  {
    Mirror(addr, RAM_START, RAM_STOP)
  }

  /** It translates nothing, and so mirrors as intended only inside the first copy. */
  lemma InternalRamIsNotMirrored(addr: word)
    requires addr < RAM_STOP
    ensures MirrorInternalRam(addr) == addr
    ensures MirrorInternalRam(addr) == Mirror(addr, RAM_START, RAM_SIZE) <==> addr < RAM_SIZE
  {
  }

  // A window [start, stop) over a memory of size bytes, which lies in [start, start + size).
  predicate Window(start: word, stop: word, size: word) {
    size > 0 && start + size <= stop
  }

  /**
   * Every cell of the stack page is out of the window, or in the home bank of a window that starts at a
   * multiple of the size: the page reaches no further than the home bank, or there is no other bank.
   */
  predicate StackAtHome(start: word, stop: word, size: word)
    requires size > 0
  {
    || STACK_BASE + 0x100 <= start
    || stop <= STACK_BASE
    || (start % size == 0 && (STACK_BASE + 0x100 <= start + size || stop == start + size))
  }

  function MirrorList(start: word, stop: word, size: word): seq<Mapping>
    requires size > 0
  {
    [Mapping(start, stop, TranslHook((addr: word) => Mirror(addr, start, size)))]
  }

  /** A machine whose only hook is the mirror. */
  function MirrorBus(start: word, stop: word, size: word): Bus
    requires size > 0
  {
    CpuCores.BusOf(Hooks([], [], MirrorList(start, stop, size)))
  }

  /** Addresses are the same byte when they are equal, or both in the window and congruent. */
  predicate Alias(start: word, stop: word, size: word, a: word, b: word)
    requires size > 0
  {
    a == b || (start <= a < stop && start <= b < stop && a % size == b % size)
  }

  lemma MirrorTranslates(start: word, stop: word, size: word, a: word)
    requires Window(start, stop, size)
    ensures MirrorBus(start, stop, size).transl(a) ==
            if start <= a < stop then a % size + start else a
  {
    var list := MirrorList(start, stop, size);
    assert list[1..] == [] && Lookup([], a) == NoHook;
    assert a % size < size;
    assert CpuCores.TranslBy(list, a) == if start <= a < stop then Mirror(a, start, size) else a;
  }

  lemma MirrorHooksNothing(start: word, stop: word, size: word, a: word, v: byte)
    requires size > 0
    ensures MirrorBus(start, stop, size).read(a, v) == v && MirrorBus(start, stop, size).write(a, v) == v
  {
  }

  lemma HomeResidue(start: int, size: int, a: int)
    requires size > 0 && start % size == 0 && start <= a < start + size
    ensures a % size == a - start
  {
    var k := start / size;
    assert a == k * size + (a - start);
    RemainderOf(a, k, size, a - start);
  }

  lemma SmallMultiple(m: int, size: int)
    requires -size < m * size < size
    ensures m == 0
  {
    assert m >= 1 ==> m * size >= size;
    assert m <= -1 ==> m * size <= -size;
  }

  lemma RemainderOf(a: int, k: int, size: int, r: int)
    requires size > 0 && 0 <= r < size && a == k * size + r
    ensures a % size == r
  {
    var q := a / size;
    assert a == q * size + a % size;
    assert (q - k) * size == r - a % size;
    SmallMultiple(q - k, size);
  }

  /** Translation sends two addresses to one cell exactly when they alias; no outside address gets in. */
  lemma TranslatesTogetherIffAlias(start: word, stop: word, size: word, a: word, b: word)
    requires Window(start, stop, size)
    ensures MirrorBus(start, stop, size).transl(a) == MirrorBus(start, stop, size).transl(b)
       <==> Alias(start, stop, size, a, b)
  {
    MirrorTranslates(start, stop, size, a);
    MirrorTranslates(start, stop, size, b);
    hide MirrorBus;
  }

  // ---------- the stack, which goes past the hooks ----------

  lemma StackStaysHome(start: word, stop: word, size: word, sp: byte)
    requires Window(start, stop, size) && StackAtHome(start, stop, size)
    ensures MirrorBus(start, stop, size).transl(StackCell(sp)) == StackCell(sp)
  {
    MirrorTranslates(start, stop, size, StackCell(sp));
    hide MirrorBus;
    if start <= StackCell(sp) < stop {
      HomeResidue(start, size, StackCell(sp));
    }
  }

  /** A push is a store through the mirror, and a pull reads what a read through the mirror returns. */
  lemma StackIsCoherent(start: word, stop: word, size: word, c: Core, v: byte)
    requires Window(start, stop, size) && StackAtHome(start, stop, size)
    ensures Push(c, v).mem == MemWrite(MirrorBus(start, stop, size), c.mem, StackCell(c.sp), v)
    ensures Top(c) == MemRead(MirrorBus(start, stop, size), c.mem, StackCell(ToByte(c.sp + 1)))
  {
    var next := ToByte(c.sp + 1);
    StackStaysHome(start, stop, size, c.sp);
    StackStaysHome(start, stop, size, next);
    MirrorHooksNothing(start, stop, size, StackCell(c.sp), v);
    MirrorHooksNothing(start, stop, size, StackCell(next), c.mem[StackCell(next)]);
    hide MirrorBus;
  }

  /** Where a mirrored address is its own cell. */
  lemma ResidueHome(start: int, size: int, a: int)
    requires size > 0 && start <= a && a % size + start == a
    ensures start % size == 0 && a < start + size
  {
    var k := a / size;
    assert start == k * size;
    RemainderOf(start, k, size, 0);
  }

  lemma HomeIfCellsAre(start: word, stop: word, size: word)
    requires Window(start, stop, size)
    requires forall sp: byte :: MirrorBus(start, stop, size).transl(StackCell(sp)) == StackCell(sp)
    ensures StackAtHome(start, stop, size)
  {
    if start < STACK_BASE + 0x100 && STACK_BASE < stop {
      // The last cell of the page that lies in the window.
      var sp: byte := if stop <= STACK_BASE + 0xFF then stop - 1 - STACK_BASE else 0xFF;
      MirrorTranslates(start, stop, size, StackCell(sp));
      hide MirrorBus;
      assert MirrorBus(start, stop, size).transl(StackCell(sp)) == StackCell(sp);
      ResidueHome(start, size, StackCell(sp));
    }
  }

  /** Stack accesses and accesses through the bus are the same, in every state. */
  ghost predicate Coherent(bus: Bus) {
    forall c: Core, v: byte ::
      && Push(c, v).mem == MemWrite(bus, c.mem, StackCell(c.sp), v)
      && Top(c) == MemRead(bus, c.mem, StackCell(ToByte(c.sp + 1)))
  }

  lemma CoherentCell(bus: Bus, sp: byte)
    requires Coherent(bus)
    ensures bus.transl(StackCell(sp)) == StackCell(sp)
  {
    var c := Cleared().(sp := sp);
    var cell := StackCell(sp);
    assert Push(c, 1).mem == MemWrite(bus, c.mem, cell, 1);
    assert Push(c, 1).mem[cell] == 1 && c.mem[cell] == 0;
  }

  /** The stack is coherent with the mirrored memory exactly when its page is at home. */
  lemma StackIsCoherentIff(start: word, stop: word, size: word)
    requires Window(start, stop, size)
    ensures Coherent(MirrorBus(start, stop, size)) <==> StackAtHome(start, stop, size)
  {
    var bus := MirrorBus(start, stop, size);
    if StackAtHome(start, stop, size) {
      forall c: Core, v: byte
        ensures Push(c, v).mem == MemWrite(bus, c.mem, StackCell(c.sp), v)
        ensures Top(c) == MemRead(bus, c.mem, StackCell(ToByte(c.sp + 1)))
      {
        hide StackAtHome, MirrorBus, Push, Top, MemWrite, MemRead;
        StackIsCoherent(start, stop, size, c, v);
      }
    }
    if Coherent(bus) {
      forall sp: byte
        ensures bus.transl(StackCell(sp)) == StackCell(sp)
      {
        hide Coherent, MirrorBus;
        CoherentCell(bus, sp);
      }
      HomeIfCellsAre(start, stop, size);
    }
  }

  // ---------- mixed sequences of accesses ----------

  datatype Access =
    | ReadByte(addr: word)
    | StoreByte(addr: word, value: byte)
    | Increase(addr: word, delta: int)
    | PushByte(value: byte)
    | PullByte

  predicate OnStack(op: Access) { op.PushByte? || op.PullByte? }

  function Perform(bus: Bus, c: Core, op: Access): Core {
    match op
    case ReadByte(_) => c
    case StoreByte(a, v) => c.(mem := MemWrite(bus, c.mem, a, v))
    case Increase(a, d) => c.(mem := MemInc(bus, c.mem, a, d))
    case PushByte(v) => Push(c, v)
    case PullByte => Popped(c)
  }

  /** The byte that a read or a pull returns. */
  function Answer(bus: Bus, c: Core, op: Access): seq<byte> {
    match op
    case ReadByte(a) => [MemRead(bus, c.mem, a)]
    case PullByte => [Top(c)]
    case _ => []
  }

  function Play(bus: Bus, c: Core, ops: seq<Access>): (Core, seq<byte>)
    decreases |ops|
  {
    if ops == [] then (c, [])
    else
      var (c', outs) := Play(bus, Perform(bus, c, ops[0]), ops[1..]);
      (c', Answer(bus, c, ops[0]) + outs)
  }

  // One memory without translation or hooks, as a function from addresses to bytes: an address and its
  // aliases are the same byte because every store goes to all of them.
  type Bytemap = word -> byte

  function Assign(start: word, stop: word, size: word, bytes: Bytemap, a: word, v: byte): Bytemap
    requires size > 0
  {
    (b: word) => if Alias(start, stop, size, a, b) then v else bytes(b)
  }

  function SpecPerform(start: word, stop: word, size: word, bytes: Bytemap, sp: byte, op: Access): (Bytemap, byte)
    requires size > 0
  {
    match op
    case ReadByte(_) => (bytes, sp)
    case StoreByte(a, v) => (Assign(start, stop, size, bytes, a, v), sp)
    case Increase(a, d) => (Assign(start, stop, size, bytes, a, ToByte(bytes(a) + d)), sp)
    case PushByte(v) => (Assign(start, stop, size, bytes, StackCell(sp), v), ToByte(sp - 1))
    case PullByte => (bytes, ToByte(sp + 1))
  }

  function SpecAnswer(bytes: Bytemap, sp: byte, op: Access): seq<byte> {
    match op
    case ReadByte(a) => [bytes(a)]
    case PullByte => [bytes(StackCell(ToByte(sp + 1)))]
    case _ => []
  }

  function SpecPlay(start: word, stop: word, size: word, bytes: Bytemap, sp: byte, ops: seq<Access>):
      (Bytemap, byte, seq<byte>)
    requires size > 0
    decreases |ops|
  {
    if ops == [] then (bytes, sp, [])
    else
      var (bytes1, sp1) := SpecPerform(start, stop, size, bytes, sp, ops[0]);
      var (bytes2, sp2, outs) := SpecPlay(start, stop, size, bytes1, sp1, ops[1..]);
      (bytes2, sp2, SpecAnswer(bytes, sp, ops[0]) + outs)
  }

  /** Every read through the bus returns the byte of the map. */
  ghost predicate Shows(bus: Bus, mem: Memory, bytes: Bytemap) {
    forall b: word :: MemRead(bus, mem, b) == bytes(b)
  }

  lemma AssignShown(start: word, stop: word, size: word, mem: Memory, bytes: Bytemap, a: word, v: byte)
    requires Window(start, stop, size) && Shows(MirrorBus(start, stop, size), mem, bytes)
    ensures Shows(MirrorBus(start, stop, size), MemWrite(MirrorBus(start, stop, size), mem, a, v),
                  Assign(start, stop, size, bytes, a, v))
  {
    var bus := MirrorBus(start, stop, size);
    forall b: word
      ensures MemRead(bus, MemWrite(bus, mem, a, v), b) == Assign(start, stop, size, bytes, a, v)(b)
    {
      TranslatesTogetherIffAlias(start, stop, size, a, b);
      MirrorHooksNothing(start, stop, size, bus.transl(a), v);
      MirrorHooksNothing(start, stop, size, bus.transl(b), MemWrite(bus, mem, a, v)[bus.transl(b)]);
      MirrorHooksNothing(start, stop, size, bus.transl(b), mem[bus.transl(b)]);
      hide MirrorBus, Alias;
      assert MemRead(bus, mem, b) == bytes(b);
    }
  }

  lemma CellIsRead(start: word, stop: word, size: word, mem: Memory, a: word)
    requires size > 0
    ensures mem[MirrorBus(start, stop, size).transl(a)] == MemRead(MirrorBus(start, stop, size), mem, a)
  {
    var bus := MirrorBus(start, stop, size);
    MirrorHooksNothing(start, stop, size, bus.transl(a), mem[bus.transl(a)]);
  }

  lemma AccessShown(start: word, stop: word, size: word, c: Core, bytes: Bytemap, op: Access)
    requires Window(start, stop, size) && Shows(MirrorBus(start, stop, size), c.mem, bytes)
    requires OnStack(op) ==> StackAtHome(start, stop, size)
    ensures var bus := MirrorBus(start, stop, size);
            var c' := Perform(bus, c, op);
            && Shows(bus, c'.mem, SpecPerform(start, stop, size, bytes, c.sp, op).0)
            && c'.sp == SpecPerform(start, stop, size, bytes, c.sp, op).1
            && Answer(bus, c, op) == SpecAnswer(bytes, c.sp, op)
  {
    hide MirrorBus, Assign, StackAtHome;
    match op {
      case ReadByte(_) =>
      case StoreByte(a, v) => AssignShown(start, stop, size, c.mem, bytes, a, v);
      case Increase(a, d) =>
        CellIsRead(start, stop, size, c.mem, a);
        AssignShown(start, stop, size, c.mem, bytes, a, ToByte(bytes(a) + d));
      case PushByte(v) =>
        StackIsCoherent(start, stop, size, c, v);
        AssignShown(start, stop, size, c.mem, bytes, StackCell(c.sp), v);
      case PullByte => StackIsCoherent(start, stop, size, c, 0);
    }
  }

  lemma {:induction false} PlayShown(start: word, stop: word, size: word, c: Core, bytes: Bytemap, ops: seq<Access>)
    requires Window(start, stop, size) && Shows(MirrorBus(start, stop, size), c.mem, bytes)
    requires (exists op :: op in ops && OnStack(op)) ==> StackAtHome(start, stop, size)
    ensures var bus := MirrorBus(start, stop, size);
            var (c', outs) := Play(bus, c, ops);
            var (bytes', sp', outs') := SpecPlay(start, stop, size, bytes, c.sp, ops);
            outs == outs' && c'.sp == sp' && Shows(bus, c'.mem, bytes')
    decreases |ops|
  {
    hide MirrorBus, StackAtHome, Shows, Perform, SpecPerform, Answer, SpecAnswer, OnStack;
    if ops != [] {
      assert ops[0] in ops;
      AccessShown(start, stop, size, c, bytes, ops[0]);
      var bus := MirrorBus(start, stop, size);
      assert forall op :: op in ops[1..] ==> op in ops;
      PlayShown(start, stop, size, Perform(bus, c, ops[0]),
                SpecPerform(start, stop, size, bytes, c.sp, ops[0]).0, ops[1..]);
    }
  }

  /** What reading each address returns. */
  function Seen(bus: Bus, mem: Memory): Bytemap {
    (b: word) => MemRead(bus, mem, b)
  }

  lemma EveryMemoryShows(bus: Bus, mem: Memory)
    ensures Shows(bus, mem, Seen(bus, mem))
  {
  }

  /**
   * From any state, over every mixed sequence of reads, stores, increments, pushes and pulls, every byte
   * read or pulled and every byte left behind is that of one memory in which exactly the aliases share a
   * byte. Pushes and pulls go past the mirror, so they ask for the stack page to be at home.
   */
  lemma MirrorIsOneMemory(start: word, stop: word, size: word, c: Core, ops: seq<Access>)
    requires Window(start, stop, size)
    requires (exists op :: op in ops && OnStack(op)) ==> StackAtHome(start, stop, size)
    ensures var bus := MirrorBus(start, stop, size);
            var (c', outs) := Play(bus, c, ops);
            var (bytes', sp', outs') := SpecPlay(start, stop, size, Seen(bus, c.mem), c.sp, ops);
            outs == outs' && c'.sp == sp' && forall b: word :: MemRead(bus, c'.mem, b) == bytes'(b)
  {
    var bus := MirrorBus(start, stop, size);
    EveryMemoryShows(bus, c.mem);
    hide MirrorBus, StackAtHome, Seen;
    PlayShown(start, stop, size, c, Seen(bus, c.mem), ops);
  }

  /** With the stack page in a mirrored bank that is not the home bank, a push is not seen where it went. */
  lemma StackAwayIsNotCoherent(c: Core)
    requires c.sp == 0 && c.mem[0x000] == 1
    ensures Window(0x000, 0x200, 0x100) && !StackAtHome(0x000, 0x200, 0x100)
    ensures Push(c, 2).mem[0x100] == 2
    ensures MemRead(MirrorBus(0x000, 0x200, 0x100), Push(c, 2).mem, 0x100) == 1
  {
    MirrorTranslates(0x000, 0x200, 0x100, 0x100);
    MirrorHooksNothing(0x000, 0x200, 0x100, 0x000, 1);
    hide MirrorBus;
  }
}
