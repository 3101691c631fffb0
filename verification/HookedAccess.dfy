/** From insertion to access: what the processor reads and writes once a hook has been registered. */
module HookedAccess {
  import opened Bytes
  import opened HookLists
  import opened Machine
  import opened CpuCores

  lemma InsertedLookup(list: seq<Mapping>, m: Mapping, addr: word)
    requires m.start < m.end
    ensures Lookup(Insert(list, m), addr) ==
            if !Accepts(list, m) then Lookup(list, addr)
            else if Covers(m, addr) then m.hook
            else if DropsList(list, m) then NoHook
            else Lookup(list, addr)
  {
    if Accepts(list, m) {
      if DropsList(list, m) {
        assert [m][1..] == [];
      } else {
        InsertOverrides(list, m, addr);
      }
    }
  }

  function WithRead(h: Hooks, m: Mapping): Hooks { h.(onRead := Insert(h.onRead, m)) }

  function WithWrite(h: Hooks, m: Mapping): Hooks { h.(onWrite := Insert(h.onWrite, m)) }

  function WithTransl(h: Hooks, m: Mapping): Hooks { h.(onTransl := Insert(h.onTransl, m)) }

  /**
   * After inserting a read hook: where it applies, a read returns what the hook returns, whatever is in the
   * cell. Elsewhere a read is as before, unless the insertion dropped the other hooks.
   */
  lemma ReadHooked(h: Hooks, f: word -> byte, start: word, end: word, addr: word, cell: byte)
    requires start < end
    ensures var m := Mapping(start, end, ReadHook(f));
            BusOf(WithRead(h, m)).read(addr, cell) ==
            if !Accepts(h.onRead, m) then BusOf(h).read(addr, cell)
            else if start <= addr < end then f(addr)
            else if DropsList(h.onRead, m) then cell
            else BusOf(h).read(addr, cell)
  {
    hide Insert, Lookup, Accepts, DropsList;
    InsertedLookup(h.onRead, Mapping(start, end, ReadHook(f)), addr);
  }

  /** After inserting a write hook: where it applies, the hook decides what a write leaves in the cell. */
  lemma WriteHooked(h: Hooks, f: (word, byte) -> byte, start: word, end: word, addr: word, v: byte)
    requires start < end
    ensures var m := Mapping(start, end, WriteHook(f));
            BusOf(WithWrite(h, m)).write(addr, v) ==
            if !Accepts(h.onWrite, m) then BusOf(h).write(addr, v)
            else if start <= addr < end then f(addr, v)
            else if DropsList(h.onWrite, m) then v
            else BusOf(h).write(addr, v)
  {
    hide Insert, Lookup, Accepts, DropsList;
    InsertedLookup(h.onWrite, Mapping(start, end, WriteHook(f)), addr);
  }

  /** After inserting a translation hook: where it applies, the hook gives the address. */
  lemma TranslHooked(h: Hooks, f: word -> word, start: word, end: word, addr: word)
    requires start < end
    ensures var m := Mapping(start, end, TranslHook(f));
            BusOf(WithTransl(h, m)).transl(addr) ==
            if !Accepts(h.onTransl, m) then BusOf(h).transl(addr)
            else if start <= addr < end then f(addr)
            else if DropsList(h.onTransl, m) then addr
            else BusOf(h).transl(addr)
  {
    hide Insert, Lookup, Accepts, DropsList;
    InsertedLookup(h.onTransl, Mapping(start, end, TranslHook(f)), addr);
  }

  /** Each kind of hook acts on its own kind of access alone. */
  lemma HooksAreSeparate(h: Hooks, m: Mapping, addr: word, v: byte)
    ensures BusOf(WithRead(h, m)).transl(addr) == BusOf(h).transl(addr)
    ensures BusOf(WithRead(h, m)).write(addr, v) == BusOf(h).write(addr, v)
    ensures BusOf(WithWrite(h, m)).transl(addr) == BusOf(h).transl(addr)
    ensures BusOf(WithWrite(h, m)).read(addr, v) == BusOf(h).read(addr, v)
    ensures BusOf(WithTransl(h, m)).read(addr, v) == BusOf(h).read(addr, v)
    ensures BusOf(WithTransl(h, m)).write(addr, v) == BusOf(h).write(addr, v)
  {
    hide Lookup, Insert;
  }

  /** What the processor reads after a read hook was inserted: the hook is asked at the translated address. */
  lemma ReadAccess(h: Hooks, f: word -> byte, start: word, end: word, mem: Memory, addr: word)
    requires start < end && Accepts(h.onRead, Mapping(start, end, ReadHook(f)))
    ensures var m, t := Mapping(start, end, ReadHook(f)), BusOf(h).transl(addr);
            MemRead(BusOf(WithRead(h, m)), mem, addr) ==
            if start <= t < end then f(t)
            else if DropsList(h.onRead, m) then mem[t]
            else MemRead(BusOf(h), mem, addr)
  {
    hide BusOf, Accepts, DropsList;
    var m, t := Mapping(start, end, ReadHook(f)), BusOf(h).transl(addr);
    HooksAreSeparate(h, m, addr, 0);
    ReadHooked(h, f, start, end, t, mem[t]);
  }

  /** What a write leaves after a write hook was inserted. */
  lemma WriteAccess(h: Hooks, f: (word, byte) -> byte, start: word, end: word, mem: Memory, addr: word, v: byte)
    requires start < end && Accepts(h.onWrite, Mapping(start, end, WriteHook(f)))
    ensures var m, t := Mapping(start, end, WriteHook(f)), BusOf(h).transl(addr);
            MemWrite(BusOf(WithWrite(h, m)), mem, addr, v) ==
            if start <= t < end then mem[t := f(t, v)]
            else if DropsList(h.onWrite, m) then mem[t := v]
            else MemWrite(BusOf(h), mem, addr, v)
  {
    hide BusOf, Accepts, DropsList;
    var m, t := Mapping(start, end, WriteHook(f)), BusOf(h).transl(addr);
    HooksAreSeparate(h, m, addr, v);
    WriteHooked(h, f, start, end, t, v);
  }

  /** After a translation hook was inserted, reads and writes ask the other hooks at the new address. */
  lemma TranslAccess(h: Hooks, f: word -> word, start: word, end: word, mem: Memory, addr: word, v: byte)
    requires start < end && Accepts(h.onTransl, Mapping(start, end, TranslHook(f)))
    ensures var m := Mapping(start, end, TranslHook(f));
            var bus, bus' := BusOf(h), BusOf(WithTransl(h, m));
            var t := if start <= addr < end then f(addr)
                     else if DropsList(h.onTransl, m) then addr else bus.transl(addr);
            && MemRead(bus', mem, addr) == bus.read(t, mem[t])
            && MemWrite(bus', mem, addr, v) == mem[t := bus.write(t, v)]
  {
    hide BusOf, Accepts, DropsList;
    var m := Mapping(start, end, TranslHook(f));
    var t := BusOf(WithTransl(h, m)).transl(addr);
    HooksAreSeparate(h, m, t, v);
    HooksAreSeparate(h, m, t, mem[t]);
    TranslHooked(h, f, start, end, addr);
  }

  /** After any history of insertions and clears a read is answered by the plain table of that history. */
  lemma HistoryAnswersReads(ops: seq<Op>, onWrite: seq<Mapping>, onTransl: seq<Mapping>, addr: word, cell: byte)
    requires forall i :: 0 <= i < |ops| ==> ValidOp(ops[i])
    ensures var table := ReplayTable(ops);
            BusOf(Hooks(Replay(ops), onWrite, onTransl)).read(addr, cell) ==
            if addr in table && table[addr].ReadHook? then table[addr].read(addr) else cell
  {
    hide Lookup, Replay, ReplayTable, ValidOp;
    ReplayAgrees(ops, addr);
  }

  // ---------- the hooks of one program ----------

  /** A mapping that begins behind all the others goes to the end of the list. */
  lemma InsertLast(list: seq<Mapping>, m: Mapping)
    requires Passed(list, |list|, m)
    ensures Insert(list, m) == list + [m]
  {
    WalkIsAt(list, m, |list|, true);
  }

  // A hook on a single address.
  function At(addr: word, hook: Hook): Mapping
    requires addr < 0xFFFF
  {
    Mapping(addr, addr + 1, hook)
  }

  /** The read hooks of simplenes, inserted in this order: two control registers, status, data. */
  function PpuReads(cr1: Hook, cr2: Hook, status: Hook, data: Hook): seq<Mapping> {
    Insert(Insert(Insert(Insert([], At(0x2000, cr1)), At(0x2001, cr2)), At(0x2002, status)), At(0x2007, data))
  }

  lemma PpuReadsAreAll(cr1: Hook, cr2: Hook, status: Hook, data: Hook)
    ensures PpuReads(cr1, cr2, status, data) ==
            [At(0x2000, cr1), At(0x2001, cr2), At(0x2002, status), At(0x2007, data)]
  {
    hide Insert;
    var a, b, c, d := At(0x2000, cr1), At(0x2001, cr2), At(0x2002, status), At(0x2007, data);
    assert [] + [a] == [a] && [a] + [b] == [a, b] && [a, b] + [c] == [a, b, c] && [a, b, c] + [d] == [a, b, c, d];
    InsertLast([], a);
    InsertLast([a], b);
    InsertLast([a, b], c);
    InsertLast([a, b, c], d);
  }

  /** Each of the four registers is answered by its own hook, and every other address by its cell. */
  lemma PpuReadsAnswer(cr1: word -> byte, cr2: word -> byte, status: word -> byte, data: word -> byte,
                       onWrite: seq<Mapping>, mem: Memory, addr: word)
    ensures var onRead := PpuReads(ReadHook(cr1), ReadHook(cr2), ReadHook(status), ReadHook(data));
            MemRead(BusOf(Hooks(onRead, onWrite, [])), mem, addr) ==
            match addr
            case 0x2000 => cr1(0x2000)
            case 0x2001 => cr2(0x2001)
            case 0x2002 => status(0x2002)
            case 0x2007 => data(0x2007)
            case _ => mem[addr]
  {
    PpuReadsAreAll(ReadHook(cr1), ReadHook(cr2), ReadHook(status), ReadHook(data));
    hide PpuReads;
    var l := [At(0x2000, ReadHook(cr1)), At(0x2001, ReadHook(cr2)), At(0x2002, ReadHook(status)),
              At(0x2007, ReadHook(data))];
    LookupFour(l[0], l[1], l[2], l[3], addr);
  }

  lemma LookupFour(a: Mapping, b: Mapping, c: Mapping, d: Mapping, addr: word)
    ensures Lookup([a, b, c, d], addr) ==
            if Covers(a, addr) then a.hook
            else if Covers(b, addr) then b.hook
            else if Covers(c, addr) then c.hook
            else if Covers(d, addr) then d.hook
            else NoHook
  {
    hide Covers;
    assert [a, b, c, d][1..] == [b, c, d] && [b, c, d][1..] == [c, d] && [c, d][1..] == [d] && [d][1..] == [];
    assert Lookup([d], addr) == if Covers(d, addr) then d.hook else Lookup([], addr);
    assert Lookup([c, d], addr) == if Covers(c, addr) then c.hook else Lookup([d], addr);
    assert Lookup([b, c, d], addr) == if Covers(b, addr) then b.hook else Lookup([c, d], addr);
  }
}
