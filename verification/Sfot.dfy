/** Loading an image, copying memory out, and switching the machine on and off. */
module Sfot {
  import opened Bytes
  import opened HookLists
  import opened Machine
  import CpuCores

  // ---------- loading and DMA ----------

  /** The cell behind the i-th address from an offset; addresses wrap around. */
  function Place(bus: Bus, offset: word, i: nat): word { bus.transl(ToWord(offset + i)) }

  function Loaded(bus: Bus, mem: Memory, offset: word, stream: seq<byte>): Memory
    decreases |stream|
  {
    if stream == [] then mem
    else
      var last := |stream| - 1;
      MemWrite(bus, Loaded(bus, mem, offset, stream[..last]), ToWord(offset + last), stream[last])
  }

  function Dma(bus: Bus, mem: Memory, addr: word, size: nat): (copy: seq<byte>)
    ensures |copy| == size
  {
    seq<byte>(size, i requires 0 <= i < size => MemRead(bus, mem, ToWord(addr + i)))
  }

  ghost predicate Unhooked(bus: Bus, cell: word) {
    forall v: byte :: bus.read(cell, v) == v && bus.write(cell, v) == v
  }

  /** No read or write hook acts on the cells that the stream goes to. */
  ghost predicate Transparent(bus: Bus, offset: word, n: nat) {
    forall i: nat :: i < n ==> Unhooked(bus, Place(bus, offset, i))
  }

  /** Where translation sends two of the addresses to one cell, the stream has the same byte for both. */
  ghost predicate Consistent(bus: Bus, offset: word, stream: seq<byte>) {
    forall i, j :: 0 <= i < j < |stream| && Place(bus, offset, i) == Place(bus, offset, j) ==> stream[i] == stream[j]
  }

  /** The last byte of the stream goes to its place, over whatever was loaded before. */
  lemma LoadedLast(bus: Bus, mem: Memory, offset: word, stream: seq<byte>)
    requires stream != [] && Transparent(bus, offset, |stream|)
    ensures var last := |stream| - 1;
            Loaded(bus, mem, offset, stream) ==
            Loaded(bus, mem, offset, stream[..last])[Place(bus, offset, last) := stream[last]]
  {
    assert Unhooked(bus, Place(bus, offset, |stream| - 1));
  }

  lemma {:induction false} LoadedOutside(bus: Bus, mem: Memory, offset: word, stream: seq<byte>, c: word)
    requires Transparent(bus, offset, |stream|)
    requires forall i :: 0 <= i < |stream| ==> c != Place(bus, offset, i)
    ensures Loaded(bus, mem, offset, stream)[c] == mem[c]
    decreases |stream|
  {
    hide Place;
    if stream != [] {
      LoadedLast(bus, mem, offset, stream);
      LoadedOutside(bus, mem, offset, stream[..|stream| - 1], c);
    }
  }

  lemma {:induction false} LoadedInside(bus: Bus, mem: Memory, offset: word, stream: seq<byte>, i: nat)
    requires Transparent(bus, offset, |stream|) && Consistent(bus, offset, stream) && i < |stream|
    ensures Loaded(bus, mem, offset, stream)[Place(bus, offset, i)] == stream[i]
    decreases |stream|
  {
    hide Place;
    var last := |stream| - 1;
    LoadedLast(bus, mem, offset, stream);
    if i < last {
      assert forall j :: 0 <= j < last ==> stream[..last][j] == stream[j];
      LoadedInside(bus, mem, offset, stream[..last], i);
    }
  }

  lemma DmaAt(bus: Bus, mem: Memory, offset: word, n: nat, i: nat)
    requires i < n && Transparent(bus, offset, n)
    ensures Dma(bus, mem, offset, n)[i] == mem[Place(bus, offset, i)]
  {
    var cell := Place(bus, offset, i);
    assert Unhooked(bus, cell);
    assert bus.read(cell, mem[cell]) == mem[cell];
    assert Dma(bus, mem, offset, n)[i] == MemRead(bus, mem, ToWord(offset + i));
  }

  /**
   * Copying a loaded stream back out returns it exactly when translation does not send two addresses
   * with different bytes to one cell; cells outside the stream's places keep their bytes.
   */
  lemma LoadThenDma(bus: Bus, mem: Memory, offset: word, stream: seq<byte>)
    requires Transparent(bus, offset, |stream|)
    ensures Dma(bus, Loaded(bus, mem, offset, stream), offset, |stream|) == stream
       <==> Consistent(bus, offset, stream)
    ensures forall c: word :: (forall i :: 0 <= i < |stream| ==> c != Place(bus, offset, i)) ==>
              Loaded(bus, mem, offset, stream)[c] == mem[c]
  {
    hide Loaded, Dma, Place, Transparent;
    forall c: word | forall i :: 0 <= i < |stream| ==> c != Place(bus, offset, i)
      ensures Loaded(bus, mem, offset, stream)[c] == mem[c]
    {
      LoadedOutside(bus, mem, offset, stream, c);
    }
    var loaded := Loaded(bus, mem, offset, stream);
    var copy := Dma(bus, loaded, offset, |stream|);
    forall i | 0 <= i < |stream|
      ensures copy[i] == loaded[Place(bus, offset, i)]
    {
      DmaAt(bus, loaded, offset, |stream|, i);
    }
    if Consistent(bus, offset, stream) {
      forall i | 0 <= i < |stream|
        ensures copy[i] == stream[i]
      {
        LoadedInside(bus, mem, offset, stream, i);
      }
      assert copy == stream;
    }
    if copy == stream {
      forall i, j | 0 <= i < j < |stream| && Place(bus, offset, i) == Place(bus, offset, j)
        ensures stream[i] == stream[j]
      {
        assert copy[i] == copy[j];
      }
    }
  }

  /** Without hooks every stream that a 16-bit length allows comes back, at every offset. */
  lemma LoadThenDmaPlain(mem: Memory, offset: word, stream: seq<byte>)
    requires |stream| < 0x1_0000
    ensures Dma(PLAIN_BUS, Loaded(PLAIN_BUS, mem, offset, stream), offset, |stream|) == stream
  {
    forall i, j | 0 <= i < j < |stream|
      ensures Place(PLAIN_BUS, offset, i) != Place(PLAIN_BUS, offset, j)
    {
    }
    LoadThenDma(PLAIN_BUS, mem, offset, stream);
  }

  /** Without hooks byte i goes to the address offset + i, modulo 0x10000, and no other cell changes. */
  lemma LoadedPlain(mem: Memory, offset: word, stream: seq<byte>, a: word)
    requires |stream| < 0x1_0000
    ensures var i := (a - offset) % 0x1_0000;
            Loaded(PLAIN_BUS, mem, offset, stream)[a] == if i < |stream| then stream[i] else mem[a]
  {
    var i := (a - offset) % 0x1_0000;
    assert ToWord(offset + i) == a;
    forall j: nat, k: nat | j < k < 0x1_0000
      ensures Place(PLAIN_BUS, offset, j) != Place(PLAIN_BUS, offset, k)
    {
    }
    assert Place(PLAIN_BUS, offset, i) == a;
    if i < |stream| {
      LoadedInside(PLAIN_BUS, mem, offset, stream, i);
    } else {
      LoadedOutside(PLAIN_BUS, mem, offset, stream, a);
    }
  }

  /** Without hooks the copy's byte i comes from the address addr + i, modulo 0x10000. */
  lemma DmaPlain(mem: Memory, addr: word, size: nat, i: nat)
    requires i < size
    ensures Dma(PLAIN_BUS, mem, addr, size)[i] == mem[(addr + i) % 0x1_0000]
  {
    assert Dma(PLAIN_BUS, mem, addr, size)[i] == MemRead(PLAIN_BUS, mem, ToWord(addr + i));
  }

  // ---------- power ----------

  function WithReset(mem: Memory, v: word): Memory {
    var mem := mem[RESET_VECTOR := LowByte(v)];
    mem[RESET_VECTOR + 1 := HighByte(v)]
  }

  /** Power-on leaves the reset vector in the pending-branch slot. */
  function PoweredOn(bus: Bus, s: State): State {
    s.(branched := MemRead16(bus, s.core.mem, RESET_VECTOR))
  }

  /** Power-off clears registers and memory, but neither the program counter nor the pending branch. */
  function PoweredOff(s: State): State { s.(core := Cleared()) }

  // The processor's state and its memory hooks.
  datatype System = System(state: State, hooks: Hooks)

  /** What a user does to a machine that is off, before switching it on. */
  datatype Setup =
    | SetVector(v: word)
    | LoadImage(offset: word, stream: seq<byte>)
    | HookRead(mapping: Mapping)
    | HookWrite(mapping: Mapping)
    | HookTransl(mapping: Mapping)
    | ClearHooks

  // A machine that was never on.
  function Fresh(): System { System(State(0, 0, Cleared()), Hooks([], [], [])) }

  function Off(m: System): System { System(PoweredOff(m.state), Hooks([], [], [])) }

  function BusOf(m: System): Bus { CpuCores.BusOf(m.hooks) }

  function WithMemory(m: System, mem: Memory): System {
    m.(state := m.state.(core := m.state.core.(mem := mem)))
  }

  function Prepare(m: System, op: Setup): System {
    match op
    case SetVector(v) => WithMemory(m, WithReset(m.state.core.mem, v))
    case LoadImage(offset, stream) => WithMemory(m, Loaded(BusOf(m), m.state.core.mem, offset, stream))
    case HookRead(mapping) => m.(hooks := m.hooks.(onRead := Insert(m.hooks.onRead, mapping)))
    case HookWrite(mapping) => m.(hooks := m.hooks.(onWrite := Insert(m.hooks.onWrite, mapping)))
    case HookTransl(mapping) => m.(hooks := m.hooks.(onTransl := Insert(m.hooks.onTransl, mapping)))
    case ClearHooks => m.(hooks := Hooks([], [], []))
  }

  function Prepared(m: System, ops: seq<Setup>): System
    decreases |ops|
  {
    if ops == [] then m else Prepared(Prepare(m, ops[0]), ops[1..])
  }

  /** Switched on and left to run for n steps. */
  function RunFromPowerOn(m: System, n: nat): Outcome<State> {
    Run(BusOf(m), PoweredOn(BusOf(m), m.state), n)
  }

  function StartAddress(m: System): word { MemRead16(BusOf(m), m.state.core.mem, RESET_VECTOR) }

  /** The first fetch's address if there is no branch to take. */
  function FallThrough(m: System): word { ToWord(m.state.pc + LengthAt(BusOf(m), m.state.core.mem, m.state.pc)) }

  /** The same but for the program counter and the pending branch. */
  ghost predicate Alike(m: System, m': System) {
    m.hooks == m'.hooks && m.state.core == m'.state.core
  }

  /** All that power-off leaves behind is the program counter and the pending branch. */
  lemma OffIsAlmostFresh(m: System)
    ensures Alike(Off(m), Fresh()) && Off(m).state.pc == m.state.pc
  {
  }

  lemma {:induction false} PreparedAlike(m: System, m': System, ops: seq<Setup>)
    requires Alike(m, m')
    ensures Alike(Prepared(m, ops), Prepared(m', ops)) && Prepared(m, ops).state.pc == m.state.pc
    decreases |ops|
  {
    hide Loaded, WithReset, Insert, CpuCores.BusOf;
    if ops != [] {
      PreparedAlike(Prepare(m, ops[0]), Prepare(m', ops[0]), ops[1..]);
    }
  }

  lemma StepsAgree(bus: Bus, s: State, s': State)
    requires s.core == s'.core
    ensures Step(bus, s) == Step(bus, s')
       <==> NextPc(bus, s) == NextPc(bus, s') || (NextPc(bus, s) >= RESERVED_START && NextPc(bus, s') >= RESERVED_START)
  {
    hide Effect, Taken, Target, CurrentOpcode, NextPc, Step;
    StepIsExec(bus, s);
    StepIsExec(bus, s');
  }

  /** Alike machines take the same first step exactly when nothing of the old program counter shows in it. */
  lemma FirstStep(m: System, m': System)
    requires Alike(m, m') && m'.state.pc == 0
    ensures RunFromPowerOn(m, 1) == RunFromPowerOn(m', 1)
       <==> StartAddress(m) != INVALID_ADDRESS || FallThrough(m) == FallThrough(m')
  {
    hide CpuCores.BusOf, Step, Run, NextPc, MemRead16, FallThrough;
    var s, s' := PoweredOn(BusOf(m), m.state), PoweredOn(BusOf(m), m'.state);
    OneStep(BusOf(m), s);
    OneStep(BusOf(m), s');
    NextFromPowerOn(m);
    NextFromPowerOn(m');
    FallsNear(m');
    StepsAgree(BusOf(m), s, s');
  }

  lemma NextFromPowerOn(m: System)
    ensures NextPc(BusOf(m), PoweredOn(BusOf(m), m.state)) ==
            if StartAddress(m) != INVALID_ADDRESS then StartAddress(m) else FallThrough(m)
  {
    hide BusOf, LengthAt, MemRead16;
  }

  /** From the first step on they are the same machine. */
  lemma LaterSteps(m: System, m': System, n: nat)
    requires Alike(m, m') && n > 0 && RunFromPowerOn(m, 1) == RunFromPowerOn(m', 1)
    ensures RunFromPowerOn(m, n) == RunFromPowerOn(m', n)
  {
    assert BusOf(m) == BusOf(m');
    hide Step, Run, BusOf, PoweredOn;
    RunSplit(BusOf(m), PoweredOn(BusOf(m), m.state), 1, n - 1);
    RunSplit(BusOf(m), PoweredOn(BusOf(m), m'.state), 1, n - 1);
  }

  /** Every run of one step or more after power-off and the preparations is that of a new machine so prepared. */
  ghost predicate RunsAsFresh(m: System, ops: seq<Setup>) {
    forall n: nat :: n > 0 ==> RunFromPowerOn(Prepared(Off(m), ops), n) == RunFromPowerOn(Prepared(Fresh(), ops), n)
  }

  /** One machine: its past shows only if the start address is 0xFFFF, and then in where it falls through to. */
  lemma PastShowsIff(m: System, ops: seq<Setup>)
    ensures RunsAsFresh(m, ops)
       <==> StartAddress(Prepared(Fresh(), ops)) != INVALID_ADDRESS
            || FallThrough(Prepared(Off(m), ops)) == FallThrough(Prepared(Fresh(), ops))
  {
    var p, q := Prepared(Off(m), ops), Prepared(Fresh(), ops);
    OffIsAlmostFresh(m);
    PreparedAlike(Off(m), Fresh(), ops);
    PreparedAlike(Fresh(), Fresh(), ops);
    FirstStep(p, q);
    hide Prepared, Off, Fresh, RunFromPowerOn, FallThrough;
    if RunFromPowerOn(p, 1) == RunFromPowerOn(q, 1) {
      forall n: nat | n > 0
        ensures RunFromPowerOn(p, n) == RunFromPowerOn(q, n)
      {
        LaterSteps(p, q, n);
      }
    }
  }

  /**
   * Power-off leaves the program counter and the pending branch behind. Whatever the machine was doing, with
   * the same image, hooks and reset vector it runs again as a new machine does, if and only if the start
   * address is not 0xFFFF.
   */
  lemma PowerCycle(ops: seq<Setup>)
    ensures (forall m: System :: RunsAsFresh(m, ops)) <==> StartAddress(Prepared(Fresh(), ops)) != INVALID_ADDRESS
  {
    hide RunsAsFresh, StartAddress, FallThrough;
    if StartAddress(Prepared(Fresh(), ops)) != INVALID_ADDRESS {
      forall m: System
        ensures RunsAsFresh(m, ops)
      {
        PastShowsIff(m, ops);
      }
    } else {
      var m := Fresh().(state := Fresh().state.(pc := 0x1000));
      PastShowsIff(m, ops);
      PreparedAlike(Off(m), Fresh(), ops);
      PreparedAlike(Fresh(), Fresh(), ops);
      FallsNear(Prepared(Off(m), ops));
      FallsNear(Prepared(Fresh(), ops));
    }
  }

  lemma FallsNear(m: System)
    requires m.state.pc < 0x8000
    ensures m.state.pc < FallThrough(m) <= m.state.pc + 3
  {
    hide CurrentOpcode, BusOf;
  }

  /** A reset vector set past the hooks is the start address unless a hook acts on its two cells. */
  lemma ResetIsStart(m: System, v: word)
    requires Plain(BusOf(m), RESET_VECTOR) && Plain(BusOf(m), RESET_VECTOR + 1)
    ensures StartAddress(Prepare(m, SetVector(v))) == v
  {
    hide CpuCores.BusOf;
  }

  /** Without hooks there the start address is the word in 0xFFFC and 0xFFFD, low byte first. */
  lemma StartsAtVector(m: System)
    requires Plain(BusOf(m), 0xFFFC) && Plain(BusOf(m), 0xFFFD)
    ensures StartAddress(m) == 0x100 * (m.state.core.mem[0xFFFD] as int) + m.state.core.mem[0xFFFC]
  {
    hide CpuCores.BusOf;
  }
}
