/** The packed status register and the record of flags it stands for. */
module StatusRegister {
  import opened Bytes

  const FLAG_C: bv8 := 0x01
  const FLAG_Z: bv8 := 0x02
  const FLAG_I: bv8 := 0x04
  const FLAG_D: bv8 := 0x08
  const FLAG_B: bv8 := 0x10
  const FLAG_V: bv8 := 0x40
  const FLAG_N: bv8 := 0x80

  // u is bit 5, which has no name in the register.
  datatype Flags = Flags(c: bool, z: bool, i: bool, d: bool, b: bool, u: bool, v: bool, n: bool)

  predicate TestBit(p: byte, flag: bv8) { (p as bv8) & flag != 0 }

  function Unpack(p: byte): Flags {
    Flags(TestBit(p, 0x01), TestBit(p, 0x02), TestBit(p, 0x04), TestBit(p, 0x08),
          TestBit(p, 0x10), TestBit(p, 0x20), TestBit(p, 0x40), TestBit(p, 0x80))
  }

  function Bit(on: bool, flag: bv8): bv8 { if on then flag else 0 }

  function PackBits(f: Flags): bv8 {
    Bit(f.c, 0x01) | Bit(f.z, 0x02) | Bit(f.i, 0x04) | Bit(f.d, 0x08) |
    Bit(f.b, 0x10) | Bit(f.u, 0x20) | Bit(f.v, 0x40) | Bit(f.n, 0x80)
  }

  function Pack(f: Flags): byte { PackBits(f) as int }

  /** Packing a flag record loses nothing. */
  lemma UnpackPack(f: Flags)
    ensures Unpack(Pack(f)) == f
  {
    BitsRoundTrip(PackBits(f));
  }

  /** Unpacking a status byte loses nothing. */
  lemma PackUnpack(p: byte)
    ensures Pack(Unpack(p)) == p
  {
    ByteRoundTrip(p);
    var bits := p as bv8;
    assert PackBits(Unpack(p)) == bits;
  }

  // The status register after "p | flag" or "p & ~flag".
  function SetBit(p: byte, flag: bv8, on: bool): byte {
    if on then ((p as bv8) | flag) as int else ((p as bv8) & !flag) as int
  }

  function UpdateFlag(f: Flags, flag: bv8, on: bool): Flags {
    if flag == FLAG_C then f.(c := on)
    else if flag == FLAG_Z then f.(z := on)
    else if flag == FLAG_I then f.(i := on)
    else if flag == FLAG_D then f.(d := on)
    else if flag == FLAG_B then f.(b := on)
    else if flag == FLAG_V then f.(v := on)
    else if flag == FLAG_N then f.(n := on)
    else f
  }

  predicate IsFlag(flag: bv8) {
    flag in {FLAG_C, FLAG_Z, FLAG_I, FLAG_D, FLAG_B, FLAG_V, FLAG_N}
  }

  predicate SingleBit(b: bv8) {
    b == 0x01 || b == 0x02 || b == 0x04 || b == 0x08 || b == 0x10 || b == 0x20 || b == 0x40 || b == 0x80
  }

  lemma MaskChangesOneBit(bits: bv8, flag: bv8, g: bv8)
    requires SingleBit(flag) && SingleBit(g)
    ensures (bits | flag) & g != 0 <==> flag == g || bits & g != 0
    ensures (bits & !flag) & g != 0 <==> flag != g && bits & g != 0
  {
  }

  lemma SetBitTested(p: byte, flag: bv8, on: bool, g: bv8)
    requires SingleBit(flag) && SingleBit(g)
    ensures TestBit(SetBit(p, flag, on), g) == if g == flag then on else TestBit(p, g)
  {
    MaskChangesOneBit(p as bv8, flag, g);
    BitsRoundTrip((p as bv8) | flag);
    BitsRoundTrip((p as bv8) & !flag);
  }

  /** The mask operations on the packed byte change one flag and no other. */
  lemma SetBitUpdates(p: byte, flag: bv8, on: bool)
    requires IsFlag(flag)
    ensures Unpack(SetBit(p, flag, on)) == UpdateFlag(Unpack(p), flag, on)
  {
    hide SetBit, TestBit;
    SetBitTested(p, flag, on, 0x01);
    SetBitTested(p, flag, on, 0x02);
    SetBitTested(p, flag, on, 0x04);
    SetBitTested(p, flag, on, 0x08);
    SetBitTested(p, flag, on, 0x10);
    SetBitTested(p, flag, on, 0x20);
    SetBitTested(p, flag, on, 0x40);
    SetBitTested(p, flag, on, 0x80);
  }
}
