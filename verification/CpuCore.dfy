/** The storage of the processor: program counter, byte registers, memory behind its hooks, stack. */
module CpuCores {
  import opened Bytes
  import opened StatusRegister
  import opened HookLists
  import opened MemHooks
  import M = Machine

  function TranslBy(list: seq<Mapping>, addr: word): word {
    match Lookup(list, addr)
    case TranslHook(f) => f(addr)
    case _ => addr
  }

  function ReadBy(list: seq<Mapping>, addr: word, cell: byte): byte {
    match Lookup(list, addr)
    case ReadHook(f) => f(addr)
    case _ => cell
  }

  function WriteBy(list: seq<Mapping>, addr: word, v: byte): byte {
    match Lookup(list, addr)
    case WriteHook(f) => f(addr, v)
    case _ => v
  }

  /** The hook lists as the processor sees them. */
  function BusOf(h: Hooks): M.Bus {
    M.Bus((addr: word) => TranslBy(h.onTransl, addr),
          (addr: word, cell: byte) => ReadBy(h.onRead, addr, cell),
          (addr: word, v: byte) => WriteBy(h.onWrite, addr, v))
  }

  function Index(r: M.Reg): int
    requires r != M.RegInvalid
    ensures 0 <= Index(r) < 5
  {
    match r
    case RegSP => 0
    case RegA => 1
    case RegX => 2
    case RegY => 3
    case RegP => 4
  }

  class CpuCore {
    var pc: word
    const regs: array<byte>
    const mem: array<byte>
    const hooks: HookTable

    ghost predicate Sized() {
      regs.Length == 5 && mem.Length == 0x1_0000 && regs != mem
    }

    ghost predicate Valid()
      reads hooks.onRead, hooks.onWrite, hooks.onTransl, hooks.Nodes()
    {
      Sized() && hooks.Valid()
    }

    ghost function Bus(): M.Bus
      reads hooks.onRead, hooks.onWrite, hooks.onTransl
    {
      BusOf(hooks.Contents())
    }

    ghost function Value(): M.Core
      requires Sized()
      reads regs, mem
    {
      M.Core(regs[0], regs[1], regs[2], regs[3], Unpack(regs[4]), mem[..])
    }

    constructor ()
      ensures Valid() && hooks.Contents() == Hooks([], [], [])
      ensures fresh(regs) && fresh(mem) && pc == 0
      ensures Value() == M.Cleared()
    {
      hide M.Cleared, Unpack;
      regs := new byte[5](i => 0);
      mem := new byte[0x1_0000](i => 0);
      hooks := new HookTable();
      pc := 0;
      new;
      ClearedValue();
    }

    lemma ClearedValue()
      requires Sized()
      requires forall i :: 0 <= i < 5 ==> regs[i] == 0
      requires forall i :: 0 <= i < 0x1_0000 ==> mem[i] == 0
      ensures Value() == M.Cleared()
    {
      assert Unpack(0) == M.Cleared().p;
    }

    method ClearAll()
      requires Sized()
      modifies regs, mem
      ensures Value() == M.Cleared()
    {
      forall i | 0 <= i < mem.Length {
        mem[i] := 0;
      }
      for i := 0 to 5
        invariant forall k :: 0 <= k < i ==> regs[k] == 0
        invariant forall k :: 0 <= k < 0x1_0000 ==> mem[k] == 0
      {
        regs[i] := 0;
      }
      ClearedValue();
    }

    // ---------- memory ----------

    method MemRead(addr: word) returns (v: byte)
      requires Valid()
      ensures v == M.MemRead(Bus(), mem[..], addr)
    {
      var t := addr;
      var hook := hooks.onTransl.Check(addr);
      if hook.TranslHook? {
        t := hook.transl(addr);
      }
      hook := hooks.onRead.Check(t);
      v := if hook.ReadHook? then hook.read(t) else mem[t];
    }

    method MemRead16(addr: word) returns (v: word)
      requires Valid()
      ensures v == M.MemRead16(Bus(), mem[..], addr)
    {
      var msb := MemRead(ToWord(addr + 1));
      var lsb := MemRead(addr);
      v := MakeWord(msb, lsb);
    }

    method MemWrite(addr: word, v: byte)
      requires Valid()
      modifies mem
      ensures mem[..] == M.MemWrite(Bus(), old(mem[..]), addr, v)
    {
      var t := addr;
      var hook := hooks.onTransl.Check(addr);
      if hook.TranslHook? {
        t := hook.transl(addr);
      }
      hook := hooks.onWrite.Check(t);
      mem[t] := if hook.WriteHook? then hook.write(t, v) else v;
    }

    method MemInc(addr: word, delta: int)
      requires Valid()
      modifies mem
      ensures mem[..] == M.MemInc(Bus(), old(mem[..]), addr, delta)
    {
      var t := addr;
      var hook := hooks.onTransl.Check(addr);
      if hook.TranslHook? {
        t := hook.transl(addr);
      }
      hook := hooks.onWrite.Check(t);
      var v := ToByte(mem[t] + delta);
      mem[t] := if hook.WriteHook? then hook.write(t, v) else v;
    }

    /** A 16-bit store that goes past the hooks; the source only uses it for the reset vector. */
    method MemWrite16(addr: word, v: word)
      requires Valid() && addr < 0xFFFF
      modifies mem
      ensures mem[..] == old(mem[..])[addr := LowByte(v)][addr + 1 := HighByte(v)]
    {
      mem[addr] := LowByte(v);
      mem[addr + 1] := HighByte(v);
    }

    // ---------- stack ----------

    method StackPop() returns (v: byte)
      requires Sized()
      modifies regs
      ensures v == M.Top(old(Value())) && Value() == M.Popped(old(Value()))
    {
      var sp: int := regs[0];
      regs[0] := ToByte(sp + 1);
      v := mem[M.STACK_BASE + regs[0]];
    }

    method StackPop16() returns (v: word)
      requires Sized()
      modifies regs
      ensures v == M.Top16(old(Value())) && Value() == M.Popped(M.Popped(old(Value())))
    {
      var lsb := StackPop();
      var msb := StackPop();
      v := MakeWord(msb, lsb);
    }

    method StackPush(v: byte)
      requires Sized()
      modifies regs, mem
      ensures Value() == M.Push(old(Value()), v)
    {
      mem[M.STACK_BASE + regs[0]] := v;
      var sp: int := regs[0];
      regs[0] := ToByte(sp - 1);
    }

    method StackPush16(v: word)
      requires Sized()
      modifies regs, mem
      ensures Value() == M.Push16(old(Value()), v)
    {
      StackPush(HighByte(v));
      StackPush(LowByte(v));
    }

    // ---------- registers and flags ----------

    function GetSreg(r: M.Reg): (v: byte)
      requires Sized()
      reads regs
    {
      if r != M.RegInvalid then regs[Index(r)] else 0
    }

    lemma GetSregIsReg(r: M.Reg)
      requires Sized()
      ensures GetSreg(r) == M.GetReg(Value(), r)
    {
      PackUnpack(regs[4]);
    }

    method SetSreg(r: M.Reg, v: byte)
      requires Sized()
      modifies regs
      ensures Value() == M.SetReg(old(Value()), r, v)
    {
      if r != M.RegInvalid {
        regs[Index(r)] := v;
      }
    }

    predicate GetFlag(flag: bv8)
      requires Sized()
      reads regs
    {
      TestBit(regs[4], flag)
    }

    lemma CarryIsFlag()
      requires Sized()
      ensures GetFlag(FLAG_C) == Value().p.c
    {
    }

    lemma FlagsAreBits()
      requires Sized()
      ensures GetFlag(FLAG_C) == Value().p.c && GetFlag(FLAG_Z) == Value().p.z
      ensures GetFlag(FLAG_V) == Value().p.v && GetFlag(FLAG_N) == Value().p.n
    {
    }

    method SetFlag(flag: bv8, on: bool)
      requires Sized() && IsFlag(flag)
      modifies regs
      ensures Value() == old(Value()).(p := UpdateFlag(old(Value()).p, flag, on))
    {
      SetBitUpdates(regs[4], flag, on);
      regs[4] := SetBit(regs[4], flag, on);
    }
  }
}
