/** Unsigned 8- and 16-bit quantities, and the conversions C performs on them implicitly. */
module Bytes {

  type byte = x: int | 0 <= x < 0x100
  type word = x: int | 0 <= x < 0x1_0000

  datatype Option<+T> = None | Some(value: T)

  /** Truncation of an int to uint8_t; Euclidean remainder also wraps negative values. */
  function ToByte(n: int): byte { n % 0x100 }

  /** Truncation of an int to uint16_t. */
  function ToWord(n: int): word { n % 0x1_0000 }

  function LowByte(w: word): byte { w % 0x100 }

  function HighByte(w: word): byte { w / 0x100 }

  function MakeWord(msb: byte, lsb: byte): word { msb * 0x100 + lsb }

  /** The value of a byte read as int8_t. */
  function Signed(b: byte): int { if b < 0x80 then b else b - 0x100 }

  // Bitwise operators of C on uint8_t.
  function BitAnd(a: byte, b: byte): byte { ((a as bv8) & (b as bv8)) as int }

  function BitOr(a: byte, b: byte): byte { ((a as bv8) | (b as bv8)) as int }

  function BitXor(a: byte, b: byte): byte { ((a as bv8) ^ (b as bv8)) as int }

  lemma BitsRoundTrip(b: bv8)
    ensures (b as int) as bv8 == b
  {
  }

  function ThroughBits(p: byte): byte { (p as bv8) as int }

  lemma SameThroughBits(p: byte)
    ensures ThroughBits(p) == p
  {
  }

  lemma ByteRoundTrip(p: byte)
    ensures (p as bv8) as int == p
  {
    SameThroughBits(p);
  }
}
