/** Bytes, 32-bit words and their little-endian layout. */
module Bytes {
  type byte = x: int | 0 <= x < 256
  type u32 = x: int | 0 <= x < U32_LIMIT
  type Data = seq<byte>

  const U32_LIMIT := 0x1_0000_0000

  datatype Option<+T> = None | Some(value: T)

  /** Rust's `n as u32`: keeps the low 32 bits of a length. */
  function AsU32(n: nat): u32 {
    n % U32_LIMIT
  }

  function Le32(n: u32): (b: Data)
    ensures |b| == 4
  {
    [n % 256, n / 0x100 % 256, n / 0x1_0000 % 256, n / 0x100_0000]
  }

  function FromLe32(b: Data): u32
    requires |b| == 4
  {
    b[0] as int + 0x100 * b[1] as int + 0x1_0000 * b[2] as int + 0x100_0000 * b[3] as int
  }

  lemma Le32RoundTrip(n: u32)
    ensures FromLe32(Le32(n)) == n
  {
    var a, b, c := n / 0x100, n / 0x1_0000, n / 0x100_0000;
    assert n == 0x100 * a + n % 256;
    assert b == a / 0x100 && a == 0x100 * b + a % 256;
    assert c == b / 0x100 && b == 0x100 * c + b % 256;
  }

  lemma FromLe32RoundTrip(b: Data)
    requires |b| == 4
    ensures Le32(FromLe32(b)) == b
  {
    var n := FromLe32(b);
    assert n / 0x100_0000 == b[3];
    assert n / 0x1_0000 == b[2] as int + 0x100 * b[3] as int;
    assert n / 0x100 == b[1] as int + 0x100 * b[2] as int + 0x1_0000 * b[3] as int;
  }
}
