/** Octets and the fixed-width big-endian integers of the wire formats. */
module Bytes {
  type byte = x: int | 0 <= x < 0x100
  type u16 = x: int | 0 <= x < 0x1_0000
  type u32 = x: int | 0 <= x < 0x1_0000_0000
  type u64 = x: int | 0 <= x < 0x1_0000_0000_0000_0000

  const U16_MAX: int := 0xFFFF
  const U32_MAX: int := 0xFFFF_FFFF
  const U64_MAX: int := 0xFFFF_FFFF_FFFF_FFFF
  const U128_MAX: int := 0xFFFF_FFFF_FFFF_FFFF_FFFF_FFFF_FFFF_FFFF

  function Be16(x: u16): (b: seq<byte>)
    ensures |b| == 2 && De16(b) == x
  {
    [x / 0x100, x % 0x100]
  }

  function De16(b: seq<byte>): u16
    requires |b| >= 2
  {
    b[0] as int * 0x100 + b[1]
  }

  function Be32(x: u32): (b: seq<byte>)
    ensures |b| == 4 && De32(b) == x
  {
    Be16(x / 0x1_0000) + Be16(x % 0x1_0000)
  }

  function De32(b: seq<byte>): u32
    requires |b| >= 4
  {
    De16(b[..2]) as int * 0x1_0000 + De16(b[2..4])
  }

  function Be64(x: u64): (b: seq<byte>)
    ensures |b| == 8 && De64(b) == x
  {
    Be32(x / 0x1_0000_0000) + Be32(x % 0x1_0000_0000)
  }

  function De64(b: seq<byte>): u64
    requires |b| >= 8
  {
    De32(b[..4]) as int * 0x1_0000_0000 + De32(b[4..8])
  }

  /** Most significant octet first. */
  lemma BigEndian(x: u16, y: u32, z: u64)
    ensures Be16(x)[0] as int * 0x100 + Be16(x)[1] == x
    ensures Be32(y)[..2] == Be16(y / 0x1_0000) && Be32(y)[2..] == Be16(y % 0x1_0000)
    ensures Be64(z)[..4] == Be32(z / 0x1_0000_0000) && Be64(z)[4..] == Be32(z % 0x1_0000_0000)
  {
  }
}

/** Failure-carrying results. */
module Wrappers {
  datatype Option<+T> = None | Some(value: T)

  datatype Result<+T, +E> = Ok(value: T) | Err(error: E)
}
