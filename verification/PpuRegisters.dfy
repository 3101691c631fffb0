/** The PPU registers as packed bit fields. */
module PpuRegisters {

  datatype Field = Field(shift: bv8, size: bv8)

  predicate InByte(f: Field) { 0 < f.size <= 8 && f.shift <= 8 - f.size }

  function Mask(f: Field): bv8
    requires InByte(f)
  {
    (((1 as bv8) << f.size) - 1) << f.shift
  }

  function GetField(r: bv8, f: Field): bv8
    requires InByte(f)
  {
    (r & Mask(f)) >> f.shift
  }

  /** A value moved to the place of the field. */
  function Placed(v: bv8, f: Field): bv8
    requires InByte(f)
  {
    v << f.shift
  }

  /** The assertion of the setter, on the shifted value before it is cut to a byte. */
  predicate Fits(f: Field, v: bv8)
    requires InByte(f)
  {
    (v as bv16) << f.shift <= Mask(f) as bv16
  }

  function SetField(r: bv8, f: Field, v: bv8): bv8
    requires InByte(f)
  {
    (r & !Mask(f)) | Placed(v, f)
  }

  predicate Disjoint(f: Field, g: Field)
    requires InByte(f) && InByte(g)
  {
    Mask(f) & Mask(g) == 0
  }

  /** A value that passes the assertion lies under the mask, and shifts back unharmed. */
  lemma FitsUnderMask(f: Field, v: bv8)
    requires InByte(f) && Fits(f, v)
    ensures Placed(v, f) & !Mask(f) == 0
    ensures Placed(v, f) >> f.shift == v
  {
    assert f.shift == 0 || f.shift == 1 || f.shift == 2 || f.shift == 3 || f.shift == 4 || f.shift == 5 ||
           f.shift == 6 || f.shift == 7;
  }

  lemma GetOwn(r: bv8, f: Field, v: bv8)
    requires InByte(f) && Fits(f, v)
    ensures GetField(SetField(r, f, v), f) == v
  {
    FitsUnderMask(f, v);
    hide Mask, Placed;
    MaskOwn(r, Mask(f), Placed(v, f));
  }

  lemma MaskOwn(r: bv8, mask: bv8, v: bv8)
    requires v & !mask == 0
    ensures ((r & !mask) | v) & mask == v
  {
  }

  lemma GetOther(r: bv8, f: Field, g: Field, v: bv8)
    requires InByte(f) && InByte(g) && Fits(f, v) && Disjoint(f, g)
    ensures GetField(SetField(r, f, v), g) == GetField(r, g)
  {
    FitsUnderMask(f, v);
    hide Mask, Placed;
    MaskOther(r, Mask(f), Mask(g), Placed(v, f));
  }

  lemma MaskOther(r: bv8, mask: bv8, other: bv8, v: bv8)
    requires v & !mask == 0 && mask & other == 0
    ensures ((r & !mask) | v) & other == r & other
  {
  }

  /** The assertion admits exactly the values of size bits. */
  lemma FitsIff(f: Field, v: bv8)
    requires InByte(f)
    ensures Fits(f, v) <==> (v as bv16) < (1 as bv16) << f.size
  {
    assert f.shift == 0 || f.shift == 1 || f.shift == 2 || f.shift == 3 || f.shift == 4 || f.shift == 5 ||
           f.shift == 6 || f.shift == 7;
  }

  // ---------- partitions of the byte, and sequences of field writes ----------

  function Union(fs: seq<Field>): bv8
    requires forall f :: f in fs ==> InByte(f)
  {
    if fs == [] then 0 else Mask(fs[0]) | Union(fs[1..])
  }

  ghost predicate Partition(fs: seq<Field>) {
    && (forall f :: f in fs ==> InByte(f))
    && (forall i, j :: 0 <= i < j < |fs| ==> Disjoint(fs[i], fs[j]))
    && Union(fs) == 0xFF
  }

  datatype Write = Write(index: nat, value: bv8)

  ghost predicate ValidWrites(fs: seq<Field>, ws: seq<Write>)
    requires forall f :: f in fs ==> InByte(f)
  {
    forall w :: w in ws ==> w.index < |fs| && Fits(fs[w.index], w.value)
  }

  function WriteAll(r: bv8, fs: seq<Field>, ws: seq<Write>): bv8
    requires forall f :: f in fs ==> InByte(f)
    requires forall w :: w in ws ==> w.index < |fs|
    decreases |ws|
  {
    if ws == [] then r else WriteAll(SetField(r, fs[ws[0].index], ws[0].value), fs, ws[1..])
  }

  function LastWritten(ws: seq<Write>, index: nat, initial: bv8): bv8
    decreases |ws|
  {
    if ws == [] then initial
    else LastWritten(ws[1..], index, if ws[0].index == index then ws[0].value else initial)
  }

  /** After any sequence of writes to the fields of a partition, each field holds what was last written to it. */
  lemma {:induction false} FieldsHoldLastWrites(r: bv8, fs: seq<Field>, ws: seq<Write>, index: nat)
    requires Partition(fs) && ValidWrites(fs, ws) && index < |fs|
    ensures GetField(WriteAll(r, fs, ws), fs[index]) == LastWritten(ws, index, GetField(r, fs[index]))
    decreases |ws|
  {
    hide GetField, SetField, Mask, Fits;
    if ws != [] {
      var f, v := fs[ws[0].index], ws[0].value;
      assert ws[0] in ws;
      if ws[0].index == index {
        GetOwn(r, f, v);
      } else {
        DisjointEitherWay(fs[index], f);
        GetOther(r, f, fs[index], v);
      }
      FieldsHoldLastWrites(SetField(r, f, v), fs, ws[1..], index);
    }
  }

  lemma DisjointEitherWay(f: Field, g: Field)
    requires InByte(f) && InByte(g)
    ensures Disjoint(f, g) <==> Disjoint(g, f)
  {
    hide Mask;
  }

  function Compose(fs: seq<Field>, values: seq<bv8>): bv8
    requires |fs| == |values| && forall f :: f in fs ==> InByte(f)
  {
    if fs == [] then 0
    else
      assert InByte(fs[0]);
      Placed(values[0], fs[0]) | Compose(fs[1..], values[1..])
  }

  function Fields(r: bv8, fs: seq<Field>): seq<bv8>
    requires forall f :: f in fs ==> InByte(f)
  {
    seq(|fs|, i requires 0 <= i < |fs| => GetField(r, fs[i]))
  }

  lemma FieldInPlace(r: bv8, f: Field)
    requires InByte(f)
    ensures Placed(GetField(r, f), f) == r & Mask(f)
  {
    assert f.shift == 0 || f.shift == 1 || f.shift == 2 || f.shift == 3 || f.shift == 4 || f.shift == 5 ||
           f.shift == 6 || f.shift == 7;
  }

  lemma {:induction false} ComposeFields(r: bv8, fs: seq<Field>)
    requires forall f :: f in fs ==> InByte(f)
    ensures Compose(fs, Fields(r, fs)) == r & Union(fs)
  {
    hide Mask, GetField, Placed;
    if fs == [] {
      assert r & 0 == 0;
    } else {
      ComposeFields(r, fs[1..]);
      FieldInPlace(r, fs[0]);
      ComposeCons(fs, Fields(r, fs));
      assert Fields(r, fs)[1..] == Fields(r, fs[1..]);
      hide Compose, Fields;
      MaskUnion(r, Mask(fs[0]), Union(fs[1..]));
    }
  }

  lemma ComposeCons(fs: seq<Field>, values: seq<bv8>)
    requires |fs| == |values| > 0 && forall f :: f in fs ==> InByte(f)
    ensures InByte(fs[0])
    ensures Compose(fs, values) == Placed(values[0], fs[0]) | Compose(fs[1..], values[1..])
  {
  }

  lemma MaskUnion(r: bv8, m: bv8, u: bv8)
    ensures r & (m | u) == (r & m) | (r & u)
  {
  }

  /** A register is the composition of its fields, so fields determine it. */
  lemma RegisterIsItsFields(r: bv8, r': bv8, fs: seq<Field>)
    requires Partition(fs)
    ensures Compose(fs, Fields(r, fs)) == r
    ensures Fields(r, fs) == Fields(r', fs) ==> r == r'
  {
    hide Mask, GetField;
    ComposeFields(r, fs);
    ComposeFields(r', fs);
    assert r & 0xFF == r && r' & 0xFF == r';
  }

  // ---------- the three registers ----------

  const VERTICAL_WRITE := Field(2, 1)

  const CR1_FIELDS := [Field(0, 2), Field(2, 1), Field(3, 1), Field(4, 1), Field(5, 1), Field(6, 1), Field(7, 1)]
  const CR2_FIELDS := [Field(0, 1), Field(1, 1), Field(2, 1), Field(3, 1), Field(4, 1), Field(5, 3)]
  const SR_FIELDS := [Field(0, 6), Field(6, 1), Field(7, 1)]

  // The union, from the last field backwards.
  lemma UnionSnoc(fs: seq<Field>, f: Field)
    requires InByte(f) && forall g :: g in fs ==> InByte(g)
    ensures Union(fs + [f]) == Union(fs) | Mask(f)
  {
    hide Mask;
    if fs == [] {
      assert Union([f]) == Mask(f) | Union([f][1..]);
      assert Mask(f) | 0 == Mask(f) == 0 | Mask(f);
      assert [] + [f] == [f];
    } else {
      assert (fs + [f])[1..] == fs[1..] + [f];
      UnionSnoc(fs[1..], f);
      OrAssociates(Mask(fs[0]), Union(fs[1..]), Mask(f));
    }
  }

  lemma OrAssociates(a: bv8, b: bv8, c: bv8)
    ensures a | (b | c) == (a | b) | c
  {
  }

  lemma NoUnion()
    ensures Union([]) == 0
  {
  }

  lemma UnionTake(fs: seq<Field>, k: nat)
    requires k < |fs| && forall g :: g in fs ==> InByte(g)
    ensures Union(fs[..k + 1]) == Union(fs[..k]) | Mask(fs[k])
  {
    hide Mask, Union;
    assert fs[..k + 1] == fs[..k] + [fs[k]];
    UnionSnoc(fs[..k], fs[k]);
  }

  predicate HasMasks(fs: seq<Field>, masks: seq<bv8>) {
    |fs| == |masks| && forall i :: 0 <= i < |fs| ==> InByte(fs[i]) && Mask(fs[i]) == masks[i]
  }

  /** The bits of every field of the three registers, in order of the tables. */
  lemma FieldBits()
    ensures HasMasks(CR1_FIELDS, [0x03, 0x04, 0x08, 0x10, 0x20, 0x40, 0x80])
    ensures HasMasks(CR2_FIELDS, [0x01, 0x02, 0x04, 0x08, 0x10, 0xE0])
    ensures HasMasks(SR_FIELDS, [0x3F, 0x40, 0x80])
  {
  }

  lemma Cr1IsDisjoint()
    ensures forall f :: f in CR1_FIELDS ==> InByte(f)
    ensures forall i, j :: 0 <= i < j < |CR1_FIELDS| ==> Disjoint(CR1_FIELDS[i], CR1_FIELDS[j])
  {
  }

  lemma Cr2IsDisjoint()
    ensures forall f :: f in CR2_FIELDS ==> InByte(f)
    ensures forall i, j :: 0 <= i < j < |CR2_FIELDS| ==> Disjoint(CR2_FIELDS[i], CR2_FIELDS[j])
  {
  }

  lemma SrIsDisjoint()
    ensures forall f :: f in SR_FIELDS ==> InByte(f)
    ensures forall i, j :: 0 <= i < j < |SR_FIELDS| ==> Disjoint(SR_FIELDS[i], SR_FIELDS[j])
  {
  }

  lemma Cr1IsPartition()
    ensures Partition(CR1_FIELDS)
  {
    FieldBits();
    Cr1IsDisjoint();
    hide Mask, Disjoint, Union;
    NoUnion();
    UnionTake(CR1_FIELDS, 0);
    UnionTake(CR1_FIELDS, 1);
    UnionTake(CR1_FIELDS, 2);
    UnionTake(CR1_FIELDS, 3);
    UnionTake(CR1_FIELDS, 4);
    UnionTake(CR1_FIELDS, 5);
    UnionTake(CR1_FIELDS, 6);
    assert CR1_FIELDS[..0] == [] && CR1_FIELDS[..7] == CR1_FIELDS;
  }

  lemma Cr2IsPartition()
    ensures Partition(CR2_FIELDS)
  {
    FieldBits();
    Cr2IsDisjoint();
    hide Mask, Disjoint, Union;
    NoUnion();
    UnionTake(CR2_FIELDS, 0);
    UnionTake(CR2_FIELDS, 1);
    UnionTake(CR2_FIELDS, 2);
    UnionTake(CR2_FIELDS, 3);
    UnionTake(CR2_FIELDS, 4);
    UnionTake(CR2_FIELDS, 5);
    assert CR2_FIELDS[..0] == [] && CR2_FIELDS[..6] == CR2_FIELDS;
  }

  lemma SrIsPartition()
    ensures Partition(SR_FIELDS)
  {
    FieldBits();
    SrIsDisjoint();
    hide Mask, Disjoint, Union;
    NoUnion();
    UnionTake(SR_FIELDS, 0);
    UnionTake(SR_FIELDS, 1);
    UnionTake(SR_FIELDS, 2);
    assert SR_FIELDS[..0] == [] && SR_FIELDS[..3] == SR_FIELDS;
  }

  /** The fields of each of the three registers cover its byte exactly. */
  lemma TablesArePartitions()
    ensures Partition(CR1_FIELDS) && Partition(CR2_FIELDS) && Partition(SR_FIELDS)
  {
    hide Partition;
    Cr1IsPartition();
    Cr2IsPartition();
    SrIsPartition();
  }

  datatype PpuReg = CR1 | CR2 | SR

  class PpuRegs {
    const regs: array<bv8>

    predicate Valid() { regs.Length == 3 }

    function Index(r: PpuReg): int { match r case CR1 => 0 case CR2 => 1 case SR => 2 }

    function Get(r: PpuReg): bv8
      requires Valid()
      reads regs
    {
      regs[Index(r)]
    }

    constructor ()
      ensures Valid() && fresh(regs) && forall r :: Get(r) == 0
    {
      regs := new bv8[3](i => 0);
    }

    function GetF(r: PpuReg, f: Field): bv8
      requires Valid() && InByte(f)
      reads regs
    {
      GetField(Get(r), f)
    }

    method Set(r: PpuReg, v: bv8)
      requires Valid()
      modifies regs
      ensures Get(r) == v && forall q :: q != r ==> Get(q) == old(Get(q))
    {
      regs[Index(r)] := v;
    }

    /** The field takes the value, every disjoint field and every other register keeps its own. */
    method SetF(r: PpuReg, f: Field, v: bv8)
      requires Valid() && InByte(f) && Fits(f, v)
      modifies regs
      ensures Get(r) == SetField(old(Get(r)), f, v)
      ensures GetF(r, f) == v
      ensures forall g :: InByte(g) && Disjoint(f, g) ==> GetF(r, g) == old(GetF(r, g))
      ensures forall q :: q != r ==> Get(q) == old(Get(q))
    {
      hide GetField, SetField, Mask;
      GetOwn(Get(r), f, v);
      forall g | InByte(g) && Disjoint(f, g)
        ensures GetField(SetField(Get(r), f, v), g) == GetField(Get(r), g)
      {
        GetOther(Get(r), f, g, v);
      }
      Set(r, SetField(Get(r), f, v));
    }
  }
}
