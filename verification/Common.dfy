/** Small shared vocabulary. */
module Common {

  datatype Option<+T> = None | Some(value: T)

  /** One unsigned byte. */
  type byte = x: int | 0 <= x < 256

  const U32: nat := 0x1_0000_0000

  type u32 = x: nat | x < U32

  // ---------------------------------------------------------------- little-endian words

  function Le(v: u32, k: nat): byte
    requires k < 4
  {
    if k == 0 then v % 256
    else if k == 1 then v / 256 % 256
    else if k == 2 then v / 256 / 256 % 256
    else v / 256 / 256 / 256
  }

  function FromLe(a: byte, b: byte, c: byte, d: byte): u32 {
    a + 256 * b + 65536 * c + 16777216 * d
  }

  lemma FromLeByte(a: byte)
    ensures FromLe(a, 0, 0, 0) == a
  {}

  lemma LeRoundTrip(v: u32)
    ensures FromLe(Le(v, 0), Le(v, 1), Le(v, 2), Le(v, 3)) == v
  {
    var a := v / 256;
    var b := a / 256;
    assert v == 256 * a + v % 256 && a == 256 * b + a % 256 && b == 256 * (b / 256) + b % 256;
  }
}
