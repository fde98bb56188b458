/** Bytes and big-endian 16-bit words. */
module Bytes {
  import opened Machine

  type Byte = x: nat | x < 256

  /** `u16::from_be_bytes([hi, lo])`. */
  function Word(hi: Byte, lo: Byte): U16 {
    (hi as nat) * 256 + (lo as nat)
  }

  /** `(x >> 8) as u8`. */
  function Hi(x: U16): Byte {
    x / 256
  }

  /** `x as u8`. */
  function Lo(x: nat): Byte {
    x % 256
  }

  lemma WordHiLo(x: U16)
    ensures Word(Hi(x), Lo(x)) == x
  {
  }
}
